# Google connector flags of skymarshal, in Dafny

This project models the Google identity-provider adapter of Concourse's
authentication layer (skymarshal, package `skycmd`). Operators use it to
enable the Google OAuth2 connector. The adapter holds the flags they set:
display name, client id and secret, scopes, hosted domains, groups, and the
service-account settings. It also holds the per-team whitelists of users and
groups. It does three things with the flags:

- it names the provider on the login page;
- it checks that the two required credentials are present;
- it maps the flags onto the connector's configuration record, adding the
  callback address that the server computes.

Every operation in the source is a conditional, a field read or a field copy,
so the model uses datatypes and functions (module `Skycmd`). A validation
error is the sequence of its messages, with the empty sequence standing for
Go's nil error. `Serialize` returns a `Result` (module `Wrappers`): either the
structured `GoogleConfig` record or the validation messages. The functions
take their receiver by value, so `Name`, `Validate` and `Serialize` cannot
change it.

The model also holds a reference validator that is defined independently of
`Validate`. `MissingReport` walks a declarative schema of required fields and
reports `Missing <flag>` for each empty one. `ValidateMatchesSchema` proves
that `Validate` agrees with it on every input.

## Model

| member | source | states |
|---|---|---|
| Skycmd.Name | skymarshal/skycmd/google_flags.go:30-35 | the name is never empty; it is the display name when one is set, and exactly "Google" otherwise |
| Skycmd.Validate | skymarshal/skycmd/google_flags.go:37-49 | one message per empty required field, so at most 2; no error exactly when the client id and client secret are both set; "Missing client-id" appears exactly when the client id is empty and "Missing client-secret" exactly when the secret is empty; when both are reported, the client-id message comes first |
| Skycmd.EmptyIndices | skymarshal/skycmd/google_flags.go:40-46 | the positions of the empty required fields: strictly increasing, each one an empty field, and every empty field among them, so exactly the empty fields in schema order |
| Skycmd.MissingReport | skymarshal/skycmd/google_flags.go:38-48 | reference validator over a list of required fields: exactly one "Missing <flag>" message per empty field and no other message, in schema order, so every empty field is reported |
| Skycmd.ValidateMatchesSchema | skymarshal/skycmd/google_flags.go:37-49 | Validate equals the reference validator run on the schema [client-id, client-secret], for every input |
| Skycmd.ValidateReadsOnlyRequired | skymarshal/skycmd/google_flags.go:40-46 | flags that agree on the client id and the client secret get the same errors, whatever their scopes, domains, groups, service-account path, admin email and display name |
| Skycmd.MissingClientIDExample | skymarshal/skycmd/google_flags.go:40-46 | flags with only the client id empty give exactly ["Missing client-id"], which does not contain "Missing client-secret" |
| Skycmd.Serialize | skymarshal/skycmd/google_flags.go:51-65 | fails exactly when validation fails, and then returns the validation errors unchanged; on success the record carries the redirect URI verbatim and the client id, secret, scopes, hosted domains, groups, service-account path and admin email of the flags, lists in order |
| Skycmd.SerializeRoundTrip | skymarshal/skycmd/google_flags.go:56-65 | a successful record, together with the display name, gives back the original flags |
| Skycmd.SerializeReachesConfig | skymarshal/skycmd/google_flags.go:51-65 | every record whose client id and secret are set is produced by serializing the flags it is made from, with its own redirect URI |
| Skycmd.SerializeIgnoresDisplayName | skymarshal/skycmd/google_flags.go:51-65 | changing the display name changes neither the record nor the errors |
| Skycmd.SerializeExample | skymarshal/skycmd/google_flags.go:51-65 | flags with id "id", secret "secret" and groups ["eng"], serialized with "https://host/cb", give the record with those values |
| Skycmd.GetUsers | skymarshal/skycmd/google_flags.go:75-77 | returns the user whitelist element by element, with the same length, including the empty list |
| Skycmd.GetGroups | skymarshal/skycmd/google_flags.go:79-81 | returns the group whitelist element by element, with the same length, including the empty list |

## Left out

- The JSON encoding of the record (`json.Marshal`, google_flags.go:67) is left out. It is a library call, so the model returns the structured `GoogleConfig` record instead of bytes. The error that `json.Marshal` can return is not modelled either. The record built at google_flags.go:56-65 holds only strings and lists of strings, and `json.Marshal` always encodes those, so the success path has no encoding error. Go's distinction between a nil list and an empty list is not modelled, because it shows only in that encoding.
- The internals of the multi-error type are left out (`multierror.Append`, `ErrorOrNil` and how the combined message is formatted). The error is the sequence of its messages, and the empty sequence is the nil error.
- The registration of the connector at startup (`init` and `RegisterConnector`, google_flags.go:11-17) is left out. `RegisterConnector` and the registry it fills are not part of this model. They are process-wide state defined in another file.
- The struct tags (`long:`, `description:`, `json:`) and the parsing of command-line flags are left out. That binding is done by reflection in external libraries. The model takes the flags as already populated.
- The Google connector itself is left out: the OAuth2 exchange, network calls, and the admin-directory group lookups. It lives in another repository.
- GetUsers and GetGroups: the model returns the whitelist as a value. In Go they return the slice itself, which shares its backing array with the team flags, so a caller that writes to it changes the flags. That sharing is not modelled; nothing in google_flags.go writes to the returned slices.
- Go strings are byte strings. Here they are `seq<char>`, which is harmless because the code only compares them with the empty string and copies them.
