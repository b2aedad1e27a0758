/**
 * The Google identity-provider adapter of the skymarshal command line
 * (package skycmd): the flags an operator sets to enable the Google
 * connector, their validation, their mapping onto the connector's
 * configuration record, and the per-team whitelist accessors.
 */
module Skycmd {
  import opened Wrappers

  /** The operator-supplied settings of the Google connector. */
  datatype GoogleFlags = GoogleFlags(
    DisplayName: string,
    ClientID: string,
    ClientSecret: string,
    Scopes: seq<string>,
    HostedDomains: seq<string>,
    Groups: seq<string>,
    ServiceAccountFilePath: string,
    AdminEmail: string)

  /** The configuration record the Google connector is built from, before it is encoded. */
  datatype GoogleConfig = GoogleConfig(
    ClientID: string,
    ClientSecret: string,
    RedirectURI: string,
    Scopes: seq<string>,
    HostedDomains: seq<string>,
    Groups: seq<string>,
    ServiceAccountFilePath: string,
    AdminEmail: string)

  /** The per-team whitelists of Google users and Google groups. */
  datatype GoogleTeamFlags = GoogleTeamFlags(Users: seq<string>, Groups: seq<string>)

  /** The name shown on the login page when no display name is configured. */
  const DefaultName: string := "Google"

  const MissingClientID: string := "Missing client-id"
  const MissingClientSecret: string := "Missing client-secret"

  /** The name of the provider as shown to users: the display name, or "Google". */
  function Name(flag: GoogleFlags): (name: string)
    ensures name != ""
    ensures flag.DisplayName != "" ==> name == flag.DisplayName
    ensures flag.DisplayName == "" ==> name == DefaultName
  {
    if flag.DisplayName != "" then flag.DisplayName else DefaultName
  }

  /** How many of the two required fields (client id, client secret) are empty. */
  function MissingCount(flag: GoogleFlags): nat
  {
    (if flag.ClientID == "" then 1 else 0) + (if flag.ClientSecret == "" then 1 else 0)
  }

  /**
   * The validation errors of the flags, in the order they are found; the
   * empty sequence stands for the nil error. Every violated rule is reported,
   * not only the first one.
   */
  function Validate(flag: GoogleFlags): (errs: seq<string>)
    ensures |errs| == MissingCount(flag) <= 2
    ensures errs == [] <==> flag.ClientID != "" && flag.ClientSecret != ""
    ensures MissingClientID in errs <==> flag.ClientID == ""
    ensures MissingClientSecret in errs <==> flag.ClientSecret == ""
    ensures |errs| == 2 ==> errs[0] == MissingClientID && errs[1] == MissingClientSecret
  {
    var none: seq<string> := [];
    var afterID := if flag.ClientID == "" then none + [MissingClientID] else none;
    var afterSecret := if flag.ClientSecret == "" then afterID + [MissingClientSecret] else afterID;
    afterSecret
  }

  /**
   * The connector configuration for these flags and the callback address
   * computed by the server, or the validation errors unchanged when the
   * flags are not valid.
   */
  function Serialize(flag: GoogleFlags, redirectURI: string): (r: Result<GoogleConfig, seq<string>>)
    ensures r.Failure? <==> Validate(flag) != []
    ensures r.Failure? ==> r.error == Validate(flag)
    ensures r.Success? ==>
      && r.value.RedirectURI == redirectURI
      && r.value.ClientID == flag.ClientID
      && r.value.ClientSecret == flag.ClientSecret
      && r.value.Scopes == flag.Scopes
      && r.value.HostedDomains == flag.HostedDomains
      && r.value.Groups == flag.Groups
      && r.value.ServiceAccountFilePath == flag.ServiceAccountFilePath
      && r.value.AdminEmail == flag.AdminEmail
  {
    var errs := Validate(flag);
    if errs != [] then
      Failure(errs)
    else
      Success(GoogleConfig(
        ClientID := flag.ClientID,
        ClientSecret := flag.ClientSecret,
        RedirectURI := redirectURI,
        Scopes := flag.Scopes,
        HostedDomains := flag.HostedDomains,
        Groups := flag.Groups,
        ServiceAccountFilePath := flag.ServiceAccountFilePath,
        AdminEmail := flag.AdminEmail))
  }

  /** The whitelisted users of a team. */
  function GetUsers(team: GoogleTeamFlags): (users: seq<string>)
    ensures |users| == |team.Users|
    ensures forall i :: 0 <= i < |users| ==> users[i] == team.Users[i]
  {
    team.Users
  }

  /** The whitelisted groups of a team. */
  function GetGroups(team: GoogleTeamFlags): (groups: seq<string>)
    ensures |groups| == |team.Groups|
    ensures forall i :: 0 <= i < |groups| ==> groups[i] == team.Groups[i]
  {
    team.Groups
  }

  // ---------------------------------------------------------------------
  // A reference validator over a declarative schema of required fields
  // ---------------------------------------------------------------------

  /** A required field, named as on the command line, with its current value. */
  datatype RequiredField = RequiredField(flagName: string, value: string)

  /** The required fields of the Google flags, in the order they are checked. */
  function RequiredFields(flag: GoogleFlags): seq<RequiredField>
  {
    [RequiredField("client-id", flag.ClientID), RequiredField("client-secret", flag.ClientSecret)]
  }

  /** The message reporting that a required field was left empty. */
  function Missing(flagName: string): string
  {
    "Missing " + flagName
  }

  /**
   * The positions of the empty fields of a schema: strictly increasing, each
   * one an empty field, and every empty field among them.
   */
  function EmptyIndices(fields: seq<RequiredField>): (idx: seq<nat>)
    ensures forall i :: 0 <= i < |idx| ==> idx[i] < |fields| && fields[idx[i]].value == ""
    ensures forall i, j :: 0 <= i < j < |idx| ==> idx[i] < idx[j]
    ensures forall k :: 0 <= k < |fields| && fields[k].value == "" ==> k in idx
  {
    if fields == [] then []
    else
      var last := |fields| - 1;
      var before := EmptyIndices(fields[..last]);
      assert forall k :: 0 <= k < last ==> fields[..last][k] == fields[k];
      if fields[last].value == "" then before + [last] else before
  }

  /**
   * One "Missing <flag>" message for each empty field of the schema, in
   * schema order, and nothing else.
   */
  function MissingReport(fields: seq<RequiredField>): (errs: seq<string>)
    ensures |errs| == |EmptyIndices(fields)|
    ensures forall i :: 0 <= i < |errs| ==> errs[i] == Missing(fields[EmptyIndices(fields)[i]].flagName)
    ensures forall k :: 0 <= k < |fields| && fields[k].value == "" ==> Missing(fields[k].flagName) in errs
  {
    if fields == [] then []
    else
      var last := |fields| - 1;
      var before := MissingReport(fields[..last]);
      assert forall k :: 0 <= k < last ==> fields[..last][k] == fields[k];
      before + (if fields[last].value == "" then [Missing(fields[last].flagName)] else [])
  }

  /** Validate agrees with the schema-driven reference validator on every input. */
  lemma {:induction false} ValidateMatchesSchema(flag: GoogleFlags)
    ensures Validate(flag) == MissingReport(RequiredFields(flag))
  {
    var fields := RequiredFields(flag);
    assert MissingClientID == Missing(fields[0].flagName);
    assert MissingClientSecret == Missing(fields[1].flagName);
    assert fields[..1][..0] == [];
  }
  // ---------------------------------------------------------------------
  // What serialization keeps and what it drops
  // ---------------------------------------------------------------------

  /** The flags a configuration record is made from, given the display name, which the record does not hold. */
  function FlagsFor(config: GoogleConfig, displayName: string): GoogleFlags
  {
    GoogleFlags(
      DisplayName := displayName,
      ClientID := config.ClientID,
      ClientSecret := config.ClientSecret,
      Scopes := config.Scopes,
      HostedDomains := config.HostedDomains,
      Groups := config.Groups,
      ServiceAccountFilePath := config.ServiceAccountFilePath,
      AdminEmail := config.AdminEmail)
  }

  /** A successful serialization loses nothing but the display name. */
  lemma SerializeRoundTrip(flag: GoogleFlags, redirectURI: string)
    ensures Serialize(flag, redirectURI).Success? ==>
      FlagsFor(Serialize(flag, redirectURI).value, flag.DisplayName) == flag
  {
  }

  /** Every configuration record with both credentials set is the serialization of some flags. */
  lemma SerializeReachesConfig(config: GoogleConfig, displayName: string)
    requires config.ClientID != "" && config.ClientSecret != ""
    ensures Serialize(FlagsFor(config, displayName), config.RedirectURI) == Success(config)
  {
  }

  /** The display name never reaches the connector configuration, nor its errors. */
  lemma SerializeIgnoresDisplayName(flag: GoogleFlags, displayName: string, redirectURI: string)
    ensures Serialize(flag.(DisplayName := displayName), redirectURI) == Serialize(flag, redirectURI)
  {
  }

  /** Only the client id and the client secret decide the validation errors. */
  lemma ValidateReadsOnlyRequired(flag: GoogleFlags, other: GoogleFlags)
    requires flag.ClientID == other.ClientID && flag.ClientSecret == other.ClientSecret
    ensures Validate(flag) == Validate(other)
  {
  }

  /** A missing client id alone is reported, and the present client secret is not. */
  lemma MissingClientIDExample()
    ensures Validate(GoogleFlags("", "", "s", [], [], [], "", "")) == [MissingClientID]
    ensures MissingClientSecret !in Validate(GoogleFlags("", "", "s", [], [], [], "", ""))
  {
  }

  /** Valid flags serialize with the callback address carried verbatim. */
  lemma SerializeExample()
    ensures Serialize(GoogleFlags("", "id", "secret", [], [], ["eng"], "", ""), "https://host/cb")
      == Success(GoogleConfig("id", "secret", "https://host/cb", [], [], ["eng"], "", ""))
  {
  }
}
