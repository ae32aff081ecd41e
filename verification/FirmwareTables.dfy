/** The two persistent tables of a firmware upgrade, the queries and where-equals updates on them, and the
    digest that names a task. */
module FirmwareTables {
  import opened Structs

  datatype Status =
    | Init | CheckingVersion | CheckVersionFail | CheckVersionSuccess
    | Downloading | DownloadPause | DownloadCancel | DownloadFail | DownloadSuccess
    | Verifying | VerifyFail | VerifySuccess
    | PackageTransing | PackageTransFail | PackageTransSuccess
    | Installing | InstallFail | InstallSuccess
    | Updating | UpdateFail | UpdateSuccess

  const HOTA_TYPE: int32 := 1

  datatype Component = Component(versionId: string, url: string, fileName: string, size: int64,
                                 verifyInfo: string, spath: string, blVersionType: int32,
                                 componentId: string, versionNumber: string,
                                 status: Status, progress: int)

  datatype Combination = InvalidType | Hota

  datatype Task = Task(taskId: string, status: Status, progress: int, combination: Combination)

  type Hash = string -> string

  // ---------- task table ----------

  /** The status a query reports: INIT when there is no row. */
  function QueryStatus(tasks: seq<Task>): Status {
    if tasks == [] then Init else tasks[0].status
  }

  function QueryTaskId(tasks: seq<Task>): string {
    if tasks == [] then "" else tasks[0].taskId
  }

  function UpdateTask(tasks: seq<Task>, taskId: string, status: Status, progress: int): (r: seq<Task>)
    ensures |r| == |tasks|
    ensures forall i :: 0 <= i < |r| ==>
              r[i] == if tasks[i].taskId == taskId then tasks[i].(status := status, progress := progress)
                      else tasks[i]
  {
    seq(|tasks|, i requires 0 <= i < |tasks| =>
      if tasks[i].taskId == taskId then tasks[i].(status := status, progress := progress) else tasks[i])
  }

  // ---------- component table ----------

  /** The rows whose url is one of `urls` get the new progress. */
  function UpdateProgress(components: seq<Component>, urls: set<string>, status: Status, progress: int):
    (r: seq<Component>)
    ensures |r| == |components|
    ensures forall i :: 0 <= i < |r| ==>
              r[i] == if components[i].url in urls then components[i].(status := status, progress := progress)
                      else components[i]
  {
    seq(|components|, i requires 0 <= i < |components| =>
      if components[i].url in urls then components[i].(status := status, progress := progress)
      else components[i])
  }

  function Urls(components: seq<Component>): set<string> {
    set c | c in components :: c.url
  }

  function UrlsInStatus(components: seq<Component>, status: Status): set<string> {
    set c | c in components && c.status == status :: c.url
  }

  /** Two updates with the same values are one update over both sets of urls. */
  lemma UpdateTwice(components: seq<Component>, a: set<string>, b: set<string>, status: Status, progress: int)
    ensures UpdateProgress(UpdateProgress(components, a, status, progress), b, status, progress) ==
            UpdateProgress(components, a + b, status, progress)
  {
  }

  function QueryByVersionId(components: seq<Component>, versionId: string): (r: Option<Component>)
    ensures r.Some? ==> r.value in components && r.value.versionId == versionId
    ensures r.None? ==> forall c :: c in components ==> c.versionId != versionId
  {
    if components == [] then None
    else if components[0].versionId == versionId then Some(components[0])
    else QueryByVersionId(components[1..], versionId)
  }

  function UpdateUrl(components: seq<Component>, versionId: string, url: string): (r: seq<Component>)
    ensures |r| == |components|
    ensures forall i :: 0 <= i < |r| ==>
              r[i] == if components[i].versionId == versionId then components[i].(url := url) else components[i]
  {
    seq(|components|, i requires 0 <= i < |components| =>
      if components[i].versionId == versionId then components[i].(url := url) else components[i])
  }

  function UpdateUrls(components: seq<Component>, server: seq<Component>): (r: seq<Component>)
    ensures |r| == |components|
    decreases |server|
  {
    if server == [] then components
    else UpdateUrls(UpdateUrl(components, server[0].versionId, server[0].url), server[1..])
  }

  // ---------- the digest ----------

  /** The version ids in order, an underscore in front of each that does not find the text still empty. */
  function JoinIds(joined: string, components: seq<Component>): string
    decreases |components|
  {
    if components == [] then joined
    else JoinIds((if joined == "" then "" else joined + "_") + components[0].versionId, components[1..])
  }

  function TaskIdOf(sha: Hash, components: seq<Component>): string {
    if components == [] then "" else sha(JoinIds("", components))
  }

  /** Rows that agree on what was checked: everything a progress or url update leaves alone. */
  ghost predicate SameRows(a: seq<Component>, b: seq<Component>) {
    && |a| == |b|
    && forall i :: 0 <= i < |a| ==>
         b[i] == a[i].(url := b[i].url, status := b[i].status, progress := b[i].progress)
  }

  lemma {:induction false} UpdateUrlsSameRows(components: seq<Component>, server: seq<Component>)
    ensures SameRows(components, UpdateUrls(components, server))
    decreases |server|
  {
    if server != [] {
      UpdateUrlsSameRows(UpdateUrl(components, server[0].versionId, server[0].url), server[1..]);
    }
  }

  lemma {:induction false} JoinSameRows(joined: string, a: seq<Component>, b: seq<Component>)
    requires SameRows(a, b)
    ensures JoinIds(joined, a) == JoinIds(joined, b)
    decreases |a|
  {
    if a != [] {
      assert b[0].versionId == a[0].versionId;
      JoinSameRows((if joined == "" then "" else joined + "_") + a[0].versionId, a[1..], b[1..]);
    }
  }

  /** Updates of progress and url never change the digest. */
  lemma DigestKept(sha: Hash, a: seq<Component>, b: seq<Component>)
    requires SameRows(a, b)
    ensures TaskIdOf(sha, a) == TaskIdOf(sha, b)
  {
    JoinSameRows("", a, b);
  }

  /** The loop that builds the digest's text. */
  method BuildTaskId(sha: Hash, components: seq<Component>) returns (taskId: string)
    ensures taskId == TaskIdOf(sha, components)
  {
    if |components| == 0 {
      return "";
    }
    var joined := "";
    for i := 0 to |components|
      invariant JoinIds(joined, components[i..]) == JoinIds("", components)
    {
      assert components[i..][1..] == components[i + 1..];
      if joined != "" {
        joined := joined + "_";
      }
      joined := joined + components[i].versionId;
    }
    taskId := sha(joined);
  }

  // ---------- combination type ----------

  function CombinationOf(components: seq<Component>): Combination {
    if exists c :: c in components && c.blVersionType == HOTA_TYPE then Hota else InvalidType
  }

  method GetCombinationType(components: seq<Component>) returns (combination: Combination)
    ensures combination == CombinationOf(components)
  {
    combination := InvalidType;
    for i := 0 to |components|
      invariant combination == CombinationOf(components[..i])
    {
      assert components[..i + 1] == components[..i] + [components[i]];
      if components[i].blVersionType == HOTA_TYPE {
        assert components[i] in components[..i + 1];
        combination := Hota;
      }
    }
    assert components[..|components|] == components;
  }

  // ---------- the analysed server response ----------

  /** One entry of the server's `checkResults`, once its fields are parsed. */
  datatype ServerItem = ServerItem(descriptPackageId: string, url: string, size: int32, verifyInfo: string,
                                   versionCode: string)

  /** The part of the url after its last '/', empty without one. */
  function LastSplit(url: string): string
    decreases |url|
  {
    if '/' !in url then ""
    else if '/' in url[1..] then LastSplit(url[1..])
    else url[1..]
  }

  /** The component built from an entry: the version id is never filled in, the type is always HOTA. */
  function AnalysedComponent(item: ServerItem): Component {
    Component("", item.url, LastSplit(item.url), item.size, item.verifyInfo, "", HOTA_TYPE,
              item.descriptPackageId, item.versionCode, Init, 0)
  }

  function Analysed(items: seq<ServerItem>): (r: seq<Component>)
    ensures |r| == |items|
    ensures forall i :: 0 <= i < |r| ==> r[i] == AnalysedComponent(items[i])
  {
    seq(|items|, i requires 0 <= i < |items| => AnalysedComponent(items[i]))
  }

  lemma {:induction false} NoIdsJoined(components: seq<Component>)
    requires forall i :: 0 <= i < |components| ==> components[i].versionId == ""
    ensures JoinIds("", components) == ""
    decreases |components|
  {
    if components != [] {
      NoIdsJoined(components[1..]);
    }
  }

  /** Because the analysis fills in no version id, every version ever offered by the server has one and the
      same digest, and every task is a HOTA task. */
  lemma AnalysedDigest(sha: Hash, items: seq<ServerItem>)
    requires items != []
    ensures TaskIdOf(sha, Analysed(items)) == sha("")
    ensures CombinationOf(Analysed(items)) == Hota
  {
    NoIdsJoined(Analysed(items));
    assert Analysed(items)[0] in Analysed(items);
  }
}
