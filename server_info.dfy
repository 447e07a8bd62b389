/** The `ServerInfo` record: a peer's case-normalised name and its stand number. */
module ServerInfoModel {
  import opened Text

  /** Record value equality in C# is field-by-field equality, as for a Dafny datatype. */
  datatype ServerInfo = ServerInfo(serverName: string, standNumber: Int32)

  /** `new ServerInfo(name, n)`: the `ServerName` initialiser stores `name.ToLowerInvariant()`. */
  function NewServerInfo(serverName: string, standNumber: Int32): (info: ServerInfo)
    ensures IsLowerCase(info.serverName)
    ensures EqualsIgnoreCase(info.serverName, serverName)
    ensures info.standNumber == standNumber
  {
    var lower := ToLowerInvariant(serverName);
    ToLowerInvariantIdempotent(serverName);
    EqualsIgnoreCaseIffSameLower(lower, serverName);
    ServerInfo(lower, standNumber)
  }

  /** Names that differ only in letter case build equal records. */
  lemma CaseVariantsAreEqual(a: string, b: string, standNumber: Int32)
    requires EqualsIgnoreCase(a, b)
    ensures NewServerInfo(a, standNumber) == NewServerInfo(b, standNumber)
  {
    EqualsIgnoreCaseIffSameLower(a, b);
  }

  /** A name that is already lower case is stored unchanged. */
  lemma LowerCaseNameKept(serverName: string, standNumber: Int32)
    requires IsLowerCase(serverName)
    ensures NewServerInfo(serverName, standNumber).serverName == serverName
  {
    LowerCaseUnchanged(serverName);
  }
}
