/** The older copy of the client at the repository root (api_handler.py).
    It shares the handler state and request shape with the library copy;
    its endpoint table, its `states` table and `format_bool` are its own, it
    still creates revocation registries, fixes the credential comment, and
    always sends an empty self-attested map. */
module LegacyApiHandler {
  import opened Wrappers
  import opened Json
  import opened Builtins
  import Library = ApiHandler

  /** The older endpoint table: `base_proof` ends in '/', and there are no
      entries for verifying or sending a presentation. */
  const Endpoints: map<string, string> := map[
    "create_invitation" := "/connections/create-invitation",
    "receive_invitation" := "/connections/receive-invitation",
    "base_connections" := "/connections/",
    "accept_invitation" := "/accept-invitation",
    "accept_request" := "/accept-request",
    "issue_credential" := "/issue-credential/send",
    "create_registry" := "/revocation/create-registry",
    "get_credentials" := "/credentials",
    "send_proposal" := "/present-proof/send-request",
    "base_proof" := "/present-proof/records/"
  ]

  const States: map<string, int> := map["request" := 0, "active" := 1, "invitation" := 2]

  /** The capacity of a new revocation registry. */
  const MaxCredentials := 1000

  /** `format_bool(x)` */
  function FormatBool(x: Json): (r: Json)
    ensures x.JBool? ==> r == JString(if x.b then "true" else "false")
    ensures !x.JBool? ==> r == x
  {
    if x.JBool? then
      var s := BoolRepr(x.b);
      assert Lower(s) == if x.b then "true" else "false";
      JString(Lower(s))
    else x
  }

  /** Both copies format every value alike. */
  lemma FormatBoolAgrees(x: Json)
    ensures FormatBool(x) == Library.FormatBool(x)
  {
  }

  /** `states[state]` with the older table. */
  function StateCode(state: Json): (r: Result<int, PyError>)
    ensures r == Success(0) <==> state == JString("request")
    ensures r == Success(1) <==> state == JString("active")
    ensures r == Success(2) <==> state == JString("invitation")
    ensures r.Success? ==> 0 <= r.value <= 2
    ensures r.Failure? ==> (r.error == TypeError <==> state.JArray? || state.JObject?)
  {
    match state
    case JString(s) => if s in States then Success(States[s]) else Failure(KeyError)
    case JArray(_) => Failure(TypeError)
    case JObject(_) => Failure(TypeError)
    case _ => Failure(KeyError)
  }

  /** Both copies decode every state reply alike. */
  lemma StateCodeAgrees(state: Json)
    ensures StateCode(state) == Library.StateCode(state)
  {
  }

  /** `accept_invitation` */
  function AcceptInvitation(h: Library.Handler, connectionId: string): (r: Library.Request)
    ensures r == Library.AcceptInvitation(h, connectionId)
    ensures Library.Between(r.url, h.apiUrl + "/connections/", "/accept-invitation") == Some(connectionId)
  {
    Library.Request(Library.POST,
      Library.IdUrl(h.apiUrl + Endpoints["base_connections"], connectionId, Endpoints["accept_invitation"]), map[], None)
  }

  /** `accept_request` */
  function AcceptRequest(h: Library.Handler, connectionId: string): (r: Library.Request)
    ensures r == Library.AcceptRequest(h, connectionId)
    ensures Library.Between(r.url, h.apiUrl + "/connections/", "/accept-request") == Some(connectionId)
  {
    Library.Request(Library.POST,
      Library.IdUrl(h.apiUrl + Endpoints["base_connections"], connectionId, Endpoints["accept_request"]), map[], None)
  }

  /** `create_credential_definition`: the same body as the library copy;
      the revocation fields appear exactly when revocation is supported. */
  function CreateCredentialDefinition(h: Library.Handler, schemaId: string, tag: string, supportRevocation: bool): (r: Library.Request)
    ensures r == Library.CreateCredentialDefinition(h, schemaId, tag, supportRevocation)
    ensures r.body.Some? && ("support_revocation" in Keys(r.body.value) <==> supportRevocation)
    ensures r.body.Some? && ("revocation_registry_size" in Keys(r.body.value) <==> supportRevocation)
  {
    var base := map["schema_id" := JString(schemaId), "tag" := JString(tag)];
    var body := if supportRevocation then
      JObject(base["revocation_registry_size" := JInt(1000)]["support_revocation" := JString("true")])
    else
      JObject(base);
    Library.Request(Library.POST, h.apiUrl + "/credential-definitions", map[], Some(body))
  }

  /** `create_revocation_registry`: the registry body. */
  function RevocationRegistry(credDefId: string): (j: Json)
    ensures Keys(j) == {"credential_definition_id", "max_cred_num"}
    ensures Lookup(j, "credential_definition_id") == Success(JString(credDefId))
    ensures Lookup(j, "max_cred_num") == Success(JInt(MaxCredentials))
  {
    JObject(map["credential_definition_id" := JString(credDefId), "max_cred_num" := JInt(MaxCredentials)])
  }

  /** Reads the definition id back out of a registry body. */
  function ReadRevocationRegistry(j: Json): Option<string>
  {
    match Lookup(j, "credential_definition_id")
    case Success(JString(id)) => Some(id)
    case _ => None
  }

  /** `create_revocation_registry` */
  function CreateRevocationRegistry(h: Library.Handler, credDefId: string): (r: Library.Request)
    ensures r.verb == Library.POST && r.params == map[]
    ensures r.url == h.apiUrl + "/revocation/create-registry"
    ensures r.body.Some? && ReadRevocationRegistry(r.body.value) == Some(credDefId)
    ensures r.body == Some(RevocationRegistry(credDefId))
  {
    Library.Request(Library.POST, h.apiUrl + Endpoints["create_registry"], map[], Some(RevocationRegistry(credDefId)))
  }

  /** `issue_credential` in the older copy: the comment is always "string";
      otherwise the library copy's request. */
  function IssueCredential(h: Library.Handler, connectionId: string, credDefId: string, attributes: Json,
                           schema: Json): (r: Result<Library.Request, PyError>)
    ensures r == Library.IssueCredential(h, connectionId, credDefId, attributes, schema, "string")
  {
    var schemaId :- Lookup(schema, "id");
    var schemaName :- Lookup(schema, "name");
    var schemaVersion :- Lookup(schema, "version");
    var body := Library.CredentialOffer(connectionId, credDefId, attributes, schemaId, schemaName, schemaVersion, "string");
    Success(Library.Request(Library.POST, h.apiUrl + Endpoints["issue_credential"], map[], Some(body)))
  }

  /** `send_proof_request` */
  function SendProofRequest(h: Library.Handler, connectionId: string, requestedAttributes: Json, requestedPredicates: Json): (r: Library.Request)
    ensures r == Library.SendProofRequest(h, connectionId, requestedAttributes, requestedPredicates)
  {
    Library.Request(Library.POST, h.apiUrl + Endpoints["send_proposal"], map[],
      Some(Library.ProofRequest(connectionId, requestedAttributes, requestedPredicates)))
  }

  /** `get_pres_exchange_id` in the older copy asks for the records with a
      trailing '/', unlike the library copy. */
  function ProofRecordsRequest(h: Library.Handler): (r: Library.Request)
    ensures r.verb == Library.GET && r.body == None && r.params == map[]
    ensures r.url == Library.ProofRecordsRequest(h).url + "/"
  {
    Library.Request(Library.GET, h.apiUrl + Endpoints["base_proof"], map[], None)
  }

  /** `send_presentation` in the older copy: no self-attested attributes,
      and the path is built from the '/'-terminated `base_proof`; the
      request is the library one with an empty self-attested map. */
  function SendPresentation(h: Library.Handler, presExId: string, requestedAttributes: Json, requestedPredicates: Json): (r: Library.Request)
    ensures r == Library.SendPresentation(h, presExId, requestedAttributes, requestedPredicates, JObject(map[]))
    ensures r.body.Some? && Lookup(r.body.value, "self_attested_attributes") == Success(JObject(map[]))
    ensures Library.Between(r.url, h.apiUrl + "/present-proof/records/", "/send-presentation") == Some(presExId)
  {
    Library.Request(Library.POST,
      Library.IdUrl(h.apiUrl + Endpoints["base_proof"], presExId, "/send-presentation"), map[],
      Some(Library.Presentation(requestedAttributes, requestedPredicates, JObject(map[]))))
  }
}
