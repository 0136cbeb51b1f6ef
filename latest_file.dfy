/** The choice of the raw snapshot that `transform()` reads:
    `max(files, key = os.path.getctime)` over the raw directory. */
module LatestFile {
  import opened Base
  import opened Table
  import opened FileNames

  /** A directory entry with its ctime as `os.path.getctime` reports it:
      the time of the last metadata change on Unix, the creation time on
      Windows. Python returns a float; the model only compares ctimes, so
      any ordered number type does, and an `int` is used. */
  datatype RawFile = RawFile(name: string, ctime: int)

  /** The path the transform builds for an entry of the raw directory. The
      path names the entry: entries share a path exactly when they share
      a name, so picking a path, as the source does, picks an entry. */
  function RawPath(f: RawFile): (p: string)
    ensures forall g: RawFile :: RawDir + g.name == p <==> g.name == f.name
  {
    var p := RawDir + f.name;
    assert forall g: RawFile :: RawDir + g.name == p ==> (RawDir + g.name)[|RawDir|..] == g.name;
    p
  }

  /** Python's `max` with a key: keep the current best unless a later
      element is strictly greater, so the first maximal element wins. */
  function LatestIndex(files: seq<RawFile>): (i: nat)
    requires files != []
    ensures i < |files|
    ensures forall j :: 0 <= j < |files| ==> files[j].ctime <= files[i].ctime
    ensures forall j :: 0 <= j < i ==> files[j].ctime < files[i].ctime
    decreases |files|
  {
    if |files| == 1 then 0
    else
      var best := LatestIndex(files[..|files| - 1]);
      if files[|files| - 1].ctime > files[best].ctime then |files| - 1 else best
  }

  /** The newest raw file, or the ValueError `max()` raises on an empty
      directory. */
  function Latest(files: seq<RawFile>): (r: Result<RawFile, Error>)
    ensures r.Err? <==> files == []
    ensures r.Err? ==> r.error == EmptyArgument
    ensures r.Ok? ==> r.value in files && forall f :: f in files ==> f.ctime <= r.value.ctime
  {
    if files == [] then Err(EmptyArgument) else Ok(files[LatestIndex(files)])
  }

  /** The two properties of `LatestIndex` (maximal, and nothing before it
      is as new) single out one position. */
  lemma LatestIndexUnique(files: seq<RawFile>, k: nat)
    requires k < |files|
    requires forall j :: 0 <= j < |files| ==> files[j].ctime <= files[k].ctime
    requires forall j :: 0 <= j < k ==> files[j].ctime < files[k].ctime
    ensures LatestIndex(files) == k
  {
  }

  /** Among entries with the same ctime, the one listed first is read. */
  lemma LatestPrefersFirstOnTies(files: seq<RawFile>)
    requires files != []
    requires forall f :: f in files ==> f.ctime == files[0].ctime
    ensures Latest(files) == Ok(files[0])
  {
  }
}
