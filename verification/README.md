# MNNU-Desktop client: a Dafny model of its data shaping

MNNU-Desktop is a desk application that talks to a self-sovereign-identity
agent (an ACA-Py instance) over its REST interface: it creates connections
to a patient's wallet, issues credentials, asks for and verifies proofs, and
lists pending connections and proof records in two dialogs. Everything it
does beyond HTTP calls and Qt widgets is deterministic data shaping, and
that is what this project models:

- the proof-request helper that turns a schema record into the dictionary of
  requested attributes (`RequestedAttributes`);
- the request-building half of every `ApiHandler` method except those
  listed under "Left out", and the reading of every reply the code looks
  into (`response.json()[...]`), in the library
  copy (`ApiHandler`) and the older root copy (`LegacyApiHandler`): base URL,
  endpoint paths, query parameters, JSON bodies, the state-code table, the
  invitation cut out of an invitation URL, and the issuer DID taken from a
  credential-definition id;
- the table rows the proof-records dialog (`Records`) and the
  pending-connections dialog (`Connections`) derive from what they fetch,
  including the split of an alias "first last bsn" into a display name and
  a BSN (`AliasFields`).

Supporting modules: `Wrappers` (Option, Result and the Python exceptions the
code lets escape), `Json` (decoded JSON values and dictionary lookup) and
`Builtins` (Python's `str.split` with a non-empty separator, `str.join`,
`str(int)`, `str(bool).lower()`, indexing and `[:n]`), each with the lemmas
the rest needs: joining a split gives the string back, no piece contains
the separator, a split on one character has one piece more than there are
occurrences, and the decimal text of an integer reads back to it.

An HTTP request is a `Request` value (verb, URL, query parameters, optional
JSON body); responses are opaque `Json` inputs. Exceptions the source lets
propagate (`KeyError`, `IndexError`, `TypeError`, `AttributeError`) are
`Failure` results. Lookups the dialogs make through the agent
(`get_proof_records`, `get_alias_by_conn_id`, `get_pending_connections`)
are inputs: a function from state to records, a map from connection id to
alias (absent key = `None`), and a list of pending connections.

The modules import one another, so the files are verified together:
`dafny verify wrappers.dfy builtins.dfy json.dfy requested_attributes.dfy api_handler.dfy legacy_api_handler.dfy alias_fields.dfy records.dfy connections.dfy`.

## Model

| member | source | states |
|---|---|---|
| RequestedAttributes.Generate | helpers/requested_attribute_generator.py:7-18 | the keys are exactly the listed attributes (none for an empty list) and each entry is the attribute's name with one restriction to the schema's name and version |
| RequestedAttributes.GenerateRequestedAttributes | helpers/requested_attribute_generator.py:1-18 | a schema without `attributes` fails as the lookup does; an empty attribute list gives `{}` even without name and version; on success the keys are the attribute strings; a schema with all three keys and a list of strings always succeeds; a non-empty list of strings without `schema_name` or `schema_version` raises KeyError |
| RequestedAttributes.GeneratedEntries | helpers/requested_attribute_generator.py:9-16 | read through lookups, each entry's `name` is its key, `restrictions` is a one-element list whose `schema_name`/`schema_version` are the schema's |
| RequestedAttributes.SameRestrictions | helpers/requested_attribute_generator.py:9-17 | any two entries have the same keys and the same restrictions; they differ only in `name` |
| RequestedAttributes.OnlySetMatters | helpers/requested_attribute_generator.py:8-17 | two attribute lists with the same set of names give the same dictionary |
| RequestedAttributes.SizeAtMostLength | helpers/requested_attribute_generator.py:8-9 | duplicates collapse: the dictionary has at most as many entries as the list |
| RequestedAttributes.GenerateOnWellFormed | helpers/requested_attribute_generator.py:7-18 | a schema with a list of strings (possibly empty) and both name and version yields exactly the entries `Generate` builds for them |
| RequestedAttributes.SchemaBodyFeedsGenerator | library/api_handler.py:88-93 | the body `create_schema` posts, for any attribute list, fed to the generator yields one entry per attribute restricted to that schema's name and version |
| ApiHandler.BaseUrl | library/api_handler.py:30-31 | the base URL starts with `http://` and host and port can be read back from it, whatever the host contains; the port is read back only in its `str(int)` spelling (no leading zeros, no `-0`) |
| ApiHandler.NewHandler | library/api_handler.py:30-31 | a new handler's base URL reads back as the given host and port |
| ApiHandler.BaseUrlUnique | library/api_handler.py:30-31 | a URL that reads back as a host and port is exactly `http://` + host + `:` + `str(port)`, so the read-back pins the URL |
| Builtins.ReadDecimalCanonical | library/api_handler.py:31 | text that reads as an integer is exactly that integer's `str` spelling |
| ApiHandler.SetUrl | library/api_handler.py:37-38 | the new base URL replaces the old one: the result is what a fresh handler for that host and port holds |
| ApiHandler.FormatBool | library/api_handler.py:33-35 | `True`/`False` become `"true"`/`"false"`; every other value is returned unchanged |
| ApiHandler.FormatBoolIdempotent | library/api_handler.py:33-35 | formatting an already formatted value changes nothing |
| ApiHandler.BoolParam | library/api_handler.py:53-54 | the parameter text is `"true"` exactly for true and `"false"` exactly for false |
| ApiHandler.CreateInvitation | library/api_handler.py:50-56 | a POST to `/connections/create-invitation` with exactly the parameters alias, auto_accept and multi_use, the flags spelled `"true"`/`"false"` |
| ApiHandler.InvitationPayload | library/api_handler.py:58 | succeeds exactly when the URL contains `c_i=`; the result is the text after the first `c_i=` up to the next one or the end, with no `c_i=` starting inside it; otherwise an IndexError |
| ApiHandler.CreateInvitationResult | library/api_handler.py:56-58 | with `connection_id` present and a string `invitation_url` containing `c_i=`, returns that id and the invitation cut from the URL; otherwise fails with the lookup's KeyError/TypeError (id first, then URL), an AttributeError for a non-string URL, or an IndexError for a URL without the marker |
| ApiHandler.ReceiveInvitation | library/api_handler.py:60-64 | a POST to `/connections/receive-invitation` with alias and auto_accept parameters and the decoded invitation as body |
| ApiHandler.ReceiveInvitationResult | library/api_handler.py:65 | the reply's `connection_id`; fails exactly when the reply is not a dictionary holding one (KeyError for a dictionary, TypeError otherwise) |
| ApiHandler.AcceptInvitation | library/api_handler.py:67-68 | a body-less POST whose URL is `/connections/` + id + `/accept-invitation` under the base URL, so the id can be read back |
| ApiHandler.AcceptRequest | library/api_handler.py:70-71 | a body-less POST whose URL is `/connections/` + id + `/accept-request` under the base URL |
| ApiHandler.StateCode | library/api_handler.py:21-25 | `"request"`, `"active"`, `"invitation"` give 0, 1, 2 and nothing else gives those codes; any other value is a KeyError, or a TypeError when unhashable |
| ApiHandler.ConnectionStateRequest | library/api_handler.py:73-74 | a GET on `/connections/` + id |
| ApiHandler.ConnectionState | library/api_handler.py:73-75 | a reply with a `state` field yields exactly the code of that state (0, 1 or 2, or the KeyError/TypeError of the table lookup); a reply without `state` fails as the lookup does |
| ApiHandler.AgentNameRequest | library/api_handler.py:77-78 | a GET on `/status` under the base URL, with no parameters or body |
| ApiHandler.AgentName | library/api_handler.py:77-78 | the reply's `label`; fails exactly when the reply is not a dictionary holding one (KeyError for a dictionary, TypeError otherwise) |
| ApiHandler.GetConnections | library/api_handler.py:80-86 | `alias` is a parameter exactly when given and non-empty, likewise `state`; no other parameter is sent |
| ApiHandler.CreateSchema | library/api_handler.py:88-94 | a POST to `/schemas` whose body holds exactly attributes, schema_name and schema_version, copied from the inputs |
| ApiHandler.CreateSchemaResult | library/api_handler.py:95 | the reply's `schema`; fails exactly when the reply is not a dictionary holding one (KeyError for a dictionary, TypeError otherwise) |
| ApiHandler.CredentialDefinition | library/api_handler.py:97-104 | the body always has schema_id and tag; registry size 1000 and `support_revocation` `"true"` are added exactly when revocation is supported |
| ApiHandler.CredentialDefinitionRoundTrip | library/api_handler.py:98-104 | schema id, tag and the revocation choice can be read back from the body |
| ApiHandler.CreateCredentialDefinition | library/api_handler.py:97-105 | a POST to `/credential-definitions` of exactly the definition body (registry size 1000 and `"true"` when revocation is supported), which reads back as the schema id, tag and revocation choice |
| ApiHandler.CreateCredentialDefinitionResult | library/api_handler.py:110 | the reply's `credential_definition_id`; fails exactly when the reply is not a dictionary holding one (KeyError for a dictionary, TypeError otherwise) |
| ApiHandler.DidOf | library/api_handler.py:122 | the DID is the part of the credential-definition id before its first `:`, or the whole id when it has none, and contains no `:` |
| ApiHandler.CredentialOffer | library/api_handler.py:123-138 | the body is a dictionary with exactly the eleven issue-credential keys |
| ApiHandler.CredentialOfferIssuer | library/api_handler.py:122-134 | `issuer_did` and `schema_issuer_did` both hold the DID of the credential-definition id |
| ApiHandler.CredentialOfferSchema | library/api_handler.py:133-136 | `schema_id`, `schema_name` and `schema_version` are the schema record's `id`, `name` and `version`, unchanged |
| ApiHandler.CredentialOfferParties | library/api_handler.py:125-127 | `comment`, `connection_id` and `cred_def_id` are the inputs, unchanged |
| ApiHandler.CredentialOfferPreview | library/api_handler.py:124-137 | `auto_remove` and `trace` are the string `"false"`; the credential preview has exactly the keys `@type` and `attributes`, with `@type` `"issue-credential/1.0/credential-preview"` and the attributes unchanged |
| ApiHandler.IssueCredential | library/api_handler.py:120-139 | succeeds exactly when the schema record has `id`, `name` and `version` (KeyError otherwise, TypeError for a non-dictionary), then POSTs the offer to `/issue-credential/send` |
| ApiHandler.ProofRequest | library/api_handler.py:147-157 | the requested attributes and predicates pass through unchanged under `proof_request`, whose `name` is `"Het AIVD wil je locatie weten"` and version `"1.0"`; the comment is `"Ik wil proof"` and trace `"false"` |
| ApiHandler.SendProofRequest | library/api_handler.py:146-159 | a POST of that body to `/present-proof/send-request` |
| ApiHandler.ProofRequestResult | library/api_handler.py:159-160 | the reply's `presentation_exchange_id`, failing exactly when it is absent, with KeyError for a dictionary and TypeError otherwise |
| ApiHandler.ProofRecordsRequest | library/api_handler.py:162-163 | a GET on `/present-proof/records` |
| ApiHandler.FirstExchangeId | library/api_handler.py:162-164 | the exchange id of the first listed record; a missing `results` fails as that lookup does, an empty list raises IndexError, indexing a non-list fails as Python's `[0]` does, and a first record without the id fails as that lookup does |
| ApiHandler.Presentation | library/api_handler.py:168-173 | attributes, predicates and the self-attested map pass through unchanged, with trace `"false"` |
| ApiHandler.SendPresentation | library/api_handler.py:166-176 | a POST of that body to `/present-proof/records/` + id + `/send-presentation` |
| ApiHandler.VerifyPresentation | library/api_handler.py:179-181 | a body-less POST to `/present-proof/records/` + id + `/verify-presentation` |
| LegacyApiHandler.FormatBool | api_handler.py:30-32 | bools become lower-case `"true"`/`"false"`, other values pass unchanged |
| LegacyApiHandler.FormatBoolAgrees | api_handler.py:30-32 | the older `format_bool` equals the library one on every value |
| LegacyApiHandler.StateCode | api_handler.py:19-23 | `"request"`, `"active"`, `"invitation"` give 0, 1, 2; anything else is an error |
| LegacyApiHandler.StateCodeAgrees | api_handler.py:60-63 | the older state lookup equals the library one on every reply state |
| LegacyApiHandler.AcceptInvitation | api_handler.py:54-55 | the same request as the library copy |
| LegacyApiHandler.AcceptRequest | api_handler.py:57-58 | the same request as the library copy |
| LegacyApiHandler.CreateCredentialDefinition | api_handler.py:74-83 | the same request as the library copy; the two revocation fields are present exactly when revocation is supported |
| LegacyApiHandler.RevocationRegistry | api_handler.py:91-95 | the body is exactly the definition id and `max_cred_num` 1000 |
| LegacyApiHandler.CreateRevocationRegistry | api_handler.py:91-97 | a POST to `/revocation/create-registry` of exactly the registry body (`max_cred_num` 1000), which reads back as the definition id |
| LegacyApiHandler.IssueCredential | api_handler.py:99-118 | the library request with the comment fixed to `"string"`, failing in the same cases |
| LegacyApiHandler.SendProofRequest | api_handler.py:124-139 | the same request as the library copy |
| LegacyApiHandler.ProofRecordsRequest | api_handler.py:141-143 | the GET URL is the library one with a trailing `/` |
| LegacyApiHandler.SendPresentation | api_handler.py:145-153 | the library request with an empty self-attested map; the URL is `/present-proof/records/` + id + `/send-presentation` |
| AliasFields.DisplayName | records.py:68 | the alias up to its second space (all of it with fewer spaces); it holds one space when the alias has any |
| AliasFields.Bsn | records.py:69 | succeeds exactly when the alias has at least two spaces; the field right after the display name and its space, up to the next space or the end, holding no space; otherwise an IndexError |
| AliasFields.NameAndBsn | connections.py:42-43 | both columns of a row; fails with IndexError exactly when the alias has fewer than two spaces |
| Records.ActionFor | records.py:59-67 | the verify button exactly for state `presentation_received`, otherwise the note `"Verzoek verstuurd"` |
| Records.RowFor | records.py:59-74 | a row with the alias's name and BSN, the record's type and the action for its state; fails exactly when the alias has fewer than two spaces |
| Records.FillTable | records.py:48-75 | one row per fetched record, received presentations first then sent requests in fetched order; nothing is written to a row exactly when its alias is unknown; fails with IndexError exactly when some known alias has no BSN field |
| Connections.FillTable | connections.py:33-49 | row i holds the name and BSN of the i-th pending connection, one row per connection; fails with IndexError exactly when some alias has no BSN field |
| Connections.ConsecutiveSpaces | connections.py:42-43 | with two spaces after the first name, the empty field counts: the name is the first name plus a space and the BSN column shows the surname |
| Connections.GappedSplit | connections.py:42-43 | `first  last bsn` splits into four fields, the second one empty |

## Left out

- HTTP traffic: requests are built, never sent; status codes, `test_connection`'s exception handling, the request timeout and the retry loop in `create_credential_definition` (an unbounded network retry) are not modelled.
- `test_connection` and `get_credentials`: a GET on a fixed path; the first only looks at the status code, the second returns the reply as is, so there is nothing to shape.
- Base64 decoding and `ast.literal_eval` of invitations (`receive_invitation` in the library copy, `create_invitation` in the older copy): library calls and Python-literal parsing. `ApiHandler.ReceiveInvitation` takes the decoded invitation as an input, and the older `create_invitation` is modelled up to the cut invitation text (`ApiHandler.InvitationPayload`).
- The older copy's `create_invitation`, `receive_invitation`, `get_connection_state` and `create_schema` build the same requests as the library copy and are not written out a second time; its replies to `receive_invitation`, `create_schema` and `create_credential_definition` (api_handler.py:52, 72, 89) are read with the same lookups as `ApiHandler.ReceiveInvitationResult`, `ApiHandler.CreateSchemaResult` and `ApiHandler.CreateCredentialDefinitionResult`, and its replies to `get_connection_state`, `send_proof_request` and `get_pres_exchange_id` (api_handler.py:63, 139, 143) as `ApiHandler.ConnectionState` (with the older state table, equal by `LegacyApiHandler.StateCodeAgrees`), `ApiHandler.ProofRequestResult` and `ApiHandler.FirstExchangeId` read them.
- `RequestedAttributes.GenerateRequestedAttributes`: attribute lists that are not lists of strings are a TypeError here, whereas Python would iterate a string's characters or a dictionary's keys, and would accept numbers as keys.
- Records.FillTable: the model describes the cells one fill writes, not what the widget shows afterwards; after a refresh (records.py:35-37) the row count is reset but existing cells are kept, so a row skipped for an unknown alias still shows what an earlier fill wrote there.
- Records.FillTable: the partial table left behind when the alias split raises (earlier rows filled, column 4 of the failing row already set) is not modelled; the whole fill is a Failure.
- Connections.FillTable: the widget's row count is set to the number of pending connections before the loop, so when an alias split raises, the earlier rows stay filled and nothing is written to the rest; the model returns a Failure for the whole fill instead.
- Records.FillTable and Connections.FillTable: dates (`datetime.fromisoformat`/`strftime`), widgets, icons, header sizing and the click handlers (whose lambdas late-bind the loop variable) are not modelled; records and connections are typed values, so a record missing a key is not modelled.
- The dialogs' calls into `get_proof_records`, `get_alias_by_conn_id`, `get_pending_connections` and `delete_connection`, which are not defined in the modelled files: their answers are inputs.
- JSON numbers with a fraction or exponent: `Json` holds only integers, so a reply holding a Python float is not represented; every reader would treat it as it treats an integer (a float `state`, for instance, is a KeyError).
- `Builtins.Lower` lower-cases ASCII letters only; it is applied only to `"True"` and `"False"`.
- Default arguments: `support_revocation=True` of `create_credential_definition` and `comment=""` of the library `issue_credential` are not defaults here; `ApiHandler.CreateCredentialDefinition` and `ApiHandler.IssueCredential` take them as ordinary parameters, so a caller relying on the default passes `true` or `""` explicitly.
- Settings dialogs, `main.py` and the integration scripts: UI handlers and live-agent polling.
