/**
 The store with a file snapshot: the hand-written JSON array, read back by an array parser of sections 2, 3 and 5
 of RFC 8259. The encoder and decoder of one element are parameters.
 */
module FileStore {
  import opened Int64
  import opened Model
  import opened MemStore

  datatype Codec = Codec(enc: Metric -> string, dec: string -> Option<(Metric, string)>)

  /** Elements are JSON objects, and the decoder reads one back whatever follows it. */
  ghost predicate Inverts(c: Codec, ms: seq<Metric>) {
    forall m, rest :: m in ms ==> c.enc(m) != "" && c.enc(m)[0] == '{' && c.dec(c.enc(m) + rest) == Some((m, rest))
  }

  // ---- writing ----

  function Line(c: Codec, ms: seq<Metric>, i: nat): string
    requires i < |ms|
  {
    "  " + c.enc(ms[i]) + (if i != |ms| - 1 then "," else "") + "\n"
  }

  /** The lines from number i on. */
  function Lines(c: Codec, ms: seq<Metric>, i: nat): string
    requires i <= |ms|
    decreases |ms| - i
  {
    if i == |ms| then "" else Line(c, ms, i) + Lines(c, ms, i + 1)
  }

  function Serialized(c: Codec, ms: seq<Metric>): string {
    "[\n" + Lines(c, ms, 0) + "]"
  }

  method SerializeMetrics(c: Codec, metrics: seq<Metrics>, ghost ms: seq<Metric>) returns (data: string)
    requires |metrics| == |ms| && forall i :: 0 <= i < |ms| ==> metrics[i].View() == ms[i]
    ensures data == Serialized(c, ms)
  {
    data := "[\n";
    for i := 0 to |metrics|
      invariant data + Lines(c, ms, i) == "[\n" + Lines(c, ms, 0)
    {
      ghost var before := data;
      assert metrics[i].View() == ms[i];
      data := data + "  " + c.enc(metrics[i].View());
      if i != |metrics| - 1 {
        data := data + ",";
      }
      data := data + "\n";
      assert data == before + Line(c, ms, i);
    }
    data := data + "]";
  }

  // ---- reading ----

  predicate IsWs(c: char) {
    c == ' ' || c == '\t' || c == '\n' || c == '\r'
  }

  function SkipWs(s: string): (r: string)
    ensures |r| <= |s|
  {
    if s != "" && IsWs(s[0]) then SkipWs(s[1..]) else s
  }

  /** The text null is accepted as no elements. */
  function ParseArray(c: Codec, s: string): Option<seq<Metric>> {
    var open := SkipWs(s);
    if open != "" && open[0] == 'n' then
      (if |open| >= 4 && open[..4] == "null" && SkipWs(open[4..]) == "" then Some([]) else None)
    else if open == "" || open[0] != '[' then None
    else
      var first := SkipWs(open[1..]);
      if first != "" && first[0] == ']' then (if SkipWs(first[1..]) == "" then Some([]) else None)
      else ParseElements(c, first)
  }

  function ParseElements(c: Codec, s: string): Option<seq<Metric>>
    decreases |s|
  {
    match c.dec(s)
    case None => None
    case Some((m, rest)) =>
      var r := SkipWs(rest);
      if r == "" || |r| > |s| then None
      else if r[0] == ']' then (if SkipWs(r[1..]) == "" then Some([m]) else None)
      else if r[0] != ',' then None
      else
        match ParseElements(c, SkipWs(r[1..]))
        case None => None
        case Some(ms) => Some([m] + ms)
  }

  /** Behind the indentation of a line comes its element, then the rest. */
  lemma ElementFirst(c: Codec, ms: seq<Metric>, i: nat) returns (tail: string)
    requires Inverts(c, ms) && i < |ms|
    ensures tail == (if i != |ms| - 1 then "," else "") + "\n" + Lines(c, ms, i + 1) + "]"
    ensures SkipWs(Lines(c, ms, i) + "]") == c.enc(ms[i]) + tail
    ensures c.enc(ms[i]) != "" && c.enc(ms[i])[0] == '{' && c.dec(c.enc(ms[i]) + tail) == Some((ms[i], tail))
  {
    var e := c.enc(ms[i]);
    tail := (if i != |ms| - 1 then "," else "") + "\n" + Lines(c, ms, i + 1) + "]";
    assert ms[i] in ms && c.dec(e + tail) == Some((ms[i], tail));
    var text := Lines(c, ms, i) + "]";
    assert text == "  " + (e + tail);
    assert text[1..] == " " + (e + tail) && text[1..][1..] == e + tail;
    assert SkipWs(text) == SkipWs(text[1..]) == SkipWs(e + tail) == e + tail;
  }

  lemma {:induction false} ElementsReadBack(c: Codec, ms: seq<Metric>, i: nat)
    requires Inverts(c, ms) && i < |ms|
    ensures ParseElements(c, SkipWs(Lines(c, ms, i) + "]")) == Some(ms[i..])
    decreases |ms| - i
  {
    var tail := ElementFirst(c, ms, i);
    if i == |ms| - 1 {
      assert tail == "\n]" && tail[1..] == "]";
      assert SkipWs(tail) == "]";
      assert ms[i..] == [ms[i]];
    } else {
      assert tail[1..] == "\n" + (Lines(c, ms, i + 1) + "]");
      assert tail[1..][1..] == Lines(c, ms, i + 1) + "]";
      assert SkipWs(tail[1..]) == SkipWs(Lines(c, ms, i + 1) + "]");
      ElementsReadBack(c, ms, i + 1);
      assert ms[i..] == [ms[i]] + ms[i + 1..];
    }
  }

  /** What is written is a JSON array, and reads back as what was written. */
  lemma SnapshotReadsBack(c: Codec, ms: seq<Metric>)
    requires Inverts(c, ms)
    ensures ParseArray(c, Serialized(c, ms)) == Some(ms)
  {
    var s := Serialized(c, ms);
    var inner := Lines(c, ms, 0) + "]";
    assert s[0] == '[' && s[1..] == "\n" + inner && s[1..][1..] == inner;
    assert SkipWs(s) == s && SkipWs(s[1..]) == SkipWs(inner);
    if ms == [] {
      assert inner == "]" && SkipWs(inner) == inner && inner[1..] == "";
    } else {
      ElementsReadBack(c, ms, 0);
      var _ := ElementFirst(c, ms, 0);
      assert ms[0..] == ms;
    }
  }

  /** Loading into an empty map: each metric under its ID, a later one over an earlier. */
  function Loaded(ms: seq<Metric>): Store {
    PutAll(map[], ms)
  }

  lemma {:induction false} LoadedFrom(ms: seq<Metric>, id: string)
    requires id in Loaded(ms)
    ensures Loaded(ms)[id] in ms && Loaded(ms)[id].id == id
  {
    if id != ms[|ms| - 1].id {
      LoadedFrom(ms[..|ms| - 1], id);
    }
  }

  lemma {:induction false} LoadedAt(ms: seq<Metric>, i: nat)
    requires Increasing(ms) && i < |ms|
    ensures ms[i].id in Loaded(ms) && Loaded(ms)[ms[i].id] == ms[i]
  {
    var n := |ms| - 1;
    if i < n {
      LoadedAt(ms[..n], i);
      LessTotal(ms[i].id, ms[n].id);
    }
  }

  /** Loading the listing of a store gives back the store. */
  lemma LoadingInvertsListing(ms: seq<Metric>, s: Store)
    requires Lists(ms, s) && Keyed(s)
    ensures Loaded(ms) == s
  {
    forall id
      ensures id in Loaded(ms) <==> id in s
      ensures id in s ==> Loaded(ms)[id] == s[id]
    {
      if id in s {
        assert s[id].id == id && s[id] in ms;
        var i :| 0 <= i < |ms| && ms[i] == s[id];
        LoadedAt(ms, i);
      }
      if id in Loaded(ms) {
        LoadedFrom(ms, id);
      }
    }
  }

  /** Every store reached by updates survives being written and read back. */
  lemma SnapshotRoundTrip(c: Codec, us: seq<Update>, ms: seq<Metric>)
    requires Lists(ms, RunAll(map[], us)) && Inverts(c, ms)
    ensures ParseArray(c, Serialized(c, ms)) == Some(ms)
    ensures Loaded(ms) == RunAll(map[], us)
  {
    RunKeeps(map[], us);
    SnapshotReadsBack(c, ms);
    LoadingInvertsListing(ms, RunAll(map[], us));
  }

  // ---- the object ----

  datatype Error = Refused(error: MemStore.Error) | StoreFailed

  /** How writing the file goes: all of it, or an error that leaves anything behind. */
  datatype Write = Written | Failed(left: Option<string>)

  /** What a file loads, if it is there and parses. */
  function Readable(codec: Codec, file: Option<string>): Option<seq<Metric>> {
    if file.Some? then ParseArray(codec, file.value) else None
  }

  class FileStorage {
    const mem: MemStorage
    const codec: Codec
    const synchronous: bool
    const sort: seq<string> -> seq<nat>    // the library's sort, as the order it finds for IDs
    const walk: set<string> -> seq<string> // the order in which a map is walked
    var file: Option<string>               // None if there is no file

    ghost predicate Valid()
      reads this, mem, mem.repr
    {
      && mem.Valid() && this !in mem.repr
      && (forall ids :: Sorts(sort(ids), ids))
      && (forall ids, id :: id in walk(ids) <==> id in ids)
      && (forall ids, i, j :: 0 <= i < j < |walk(ids)| ==> walk(ids)[i] != walk(ids)[j])
    }

    /** Loads the file if told to; whether that fails is only logged. */
    constructor (fmt: real -> string, codec: Codec, file: Option<string>, restoreOnStartup: bool, storeIntervalSec: nat,
                 sort: seq<string> -> seq<nat>, walk: set<string> -> seq<string>)
      requires forall ids :: Sorts(sort(ids), ids)
      requires forall ids, id :: id in walk(ids) <==> id in ids
      requires forall ids, i, j :: 0 <= i < j < |walk(ids)| ==> walk(ids)[i] != walk(ids)[j]
      ensures Valid() && fresh(mem) && fresh(mem.repr) && this.codec == codec && this.file == file
      ensures synchronous <==> storeIntervalSec == 0
      ensures mem.contents ==
              if restoreOnStartup && Readable(codec, file).Some? then Loaded(Readable(codec, file).value)
              else map[]
    {
      this.mem := new MemStorage(fmt);
      this.codec, this.file := codec, file;
      this.synchronous := storeIntervalSec == 0;
      this.sort, this.walk := sort, walk;
      new;
      if restoreOnStartup {
        var _ := Load();
      }
    }

    /** The file holds what the memory holds. */
    ghost predicate Current()
      reads this, mem
    {
      exists ms :: Lists(ms, mem.contents) && file == Some(Serialized(codec, ms))
    }

    /** A store made anew from a current file takes over exactly what this one holds. */
    lemma RestartRestores()
      requires Valid() && Current()
      requires forall ms :: Lists(ms, mem.contents) ==> Inverts(codec, ms)
      ensures Readable(codec, file).Some? && Loaded(Readable(codec, file).value) == mem.contents
    {
      var ms :| Lists(ms, mem.contents) && file == Some(Serialized(codec, ms));
      SnapshotReadsBack(codec, ms);
      LoadingInvertsListing(ms, mem.contents);
    }

    method Store(write: Write) returns (err: Option<Error>)
      requires Valid()
      modifies this`file
      ensures Valid() && err == (if write.Written? then None else Some(StoreFailed))
      ensures if write.Written? then Current() else file == write.left
    {
      var metrics, ms := mem.GetAllSorted(walk(mem.data.Keys), sort);
      var data := SerializeMetrics(codec, metrics, ms);
      match write
      case Written =>
        file := Some(data);
        return None;
      case Failed(left) =>
        file := left;
        return Some(StoreFailed);
    }

    /** The snapshot a timer takes if the store is not synchronous; its failure is only logged. */
    method Tick(write: Write)
      requires Valid() && !synchronous
      modifies this`file
      ensures Valid() && if write.Written? then Current() else file == write.left
    {
      var _ := Store(write);
    }

    /** An accepted update changes the memory even when the snapshot fails and is reported. */
    method AddCounter(id: string, d: int64, write: Write) returns (err: Option<Error>)
      requires Valid()
      modifies this, mem.repr
      ensures Valid() && fresh(mem.repr - old(mem.repr))
      ensures mem.contents == MemStore.AddCounter(old(mem.contents), id, d).0
      ensures err == (if MemStore.AddCounter(old(mem.contents), id, d).1.Some? then Some(Refused(IncorrectAccess))
                      else if synchronous && write.Failed? then Some(StoreFailed) else None)
      ensures err == None && synchronous ==> Current()
      ensures err == Some(StoreFailed) ==> file == write.left
      ensures !synchronous || (err.Some? && err.value.Refused?) ==> file == old(file)
    {
      assert Looked(id);
      var e := mem.AddCounterInMutex(id, d);
      if e.Some? {
        return Some(Refused(e.value));
      }
      if synchronous {
        err := Store(write);
        return err;
      }
      return None;
    }

    method SetGauge(id: string, x: real, write: Write) returns (err: Option<Error>)
      requires Valid()
      modifies this, mem.repr
      ensures Valid() && fresh(mem.repr - old(mem.repr))
      ensures mem.contents == MemStore.SetGauge(old(mem.contents), id, x).0
      ensures err == (if MemStore.SetGauge(old(mem.contents), id, x).1.Some? then Some(Refused(IncorrectAccess))
                      else if synchronous && write.Failed? then Some(StoreFailed) else None)
      ensures err == None && synchronous ==> Current()
      ensures err == Some(StoreFailed) ==> file == write.left
      ensures !synchronous || (err.Some? && err.value.Refused?) ==> file == old(file)
    {
      assert Looked(id);
      var e := mem.SetGaugeInMutex(id, x);
      if e.Some? {
        return Some(Refused(e.value));
      }
      if synchronous {
        err := Store(write);
        return err;
      }
      return None;
    }

    method BatchUpdate(ms: seq<Metrics>, ghost xs: seq<Input>, write: Write) returns (err: Option<Error>)
      requires Valid() && mem.AllDescribed(ms, xs)
      modifies this, mem.repr
      ensures Valid() && fresh(mem.repr - old(mem.repr))
      ensures forall x :: x in xs ==> Known(old(mem.contents), x)
      ensures mem.contents == BatchedInputs(old(mem.contents), xs).0
      ensures err == (if BatchedInputs(old(mem.contents), xs).1.Some? then Some(Refused(IncorrectAccess))
                      else if synchronous && write.Failed? then Some(StoreFailed) else None)
      ensures err == None && synchronous ==> Current()
      ensures err == Some(StoreFailed) ==> file == write.left
      ensures !synchronous || (err.Some? && err.value.Refused?) ==> file == old(file)
    {
      var e := mem.BatchUpdate(ms, xs);
      if e.Some? {
        return Some(Refused(e.value));
      }
      if synchronous {
        err := Store(write);
        return err;
      }
      return None;
    }

    /** Whatever metrics the file holds are put into the store, object by object. */
    method Load() returns (ok: bool)
      requires Valid()
      modifies mem
      ensures Valid() && fresh(mem.repr - old(mem.repr)) && file == old(file)
      ensures ok <==> file.Some? && ParseArray(codec, file.value).Some?
      ensures ok == Readable(codec, file).Some?
      ensures mem.contents == if ok then PutAll(old(mem.contents), Readable(codec, file).value) else old(mem.contents)
    {
      if file == None {
        return false;
      }
      var parsed := ParseArray(codec, file.value);
      if parsed == None {
        return false;
      }
      var metrics := Unmarshalled(mem.fmt, parsed.value);
      mem.SetAll(metrics, parsed.value);
      return true;
    }
  }

  /** Objects for the values of a parsed array, each with a counter of its own. */
  method Unmarshalled(fmt: real -> string, ms: seq<Metric>) returns (metrics: seq<Metrics>)
    ensures |metrics| == |ms| && forall i :: 0 <= i < |ms| ==> fresh(metrics[i]) && metrics[i].View() == ms[i]
    ensures forall i :: 0 <= i < |ms| && metrics[i].delta != null ==> fresh(metrics[i].delta)
    ensures forall i, j :: 0 <= i < j < |ms| && metrics[i].delta != null ==> metrics[i].delta != metrics[j].delta
  {
    metrics := [];
    for i := 0 to |ms|
      invariant |metrics| == i && forall k :: 0 <= k < i ==> fresh(metrics[k]) && metrics[k].View() == ms[k]
      invariant forall k :: 0 <= k < i && metrics[k].delta != null ==> fresh(metrics[k].delta)
      invariant forall k, l :: 0 <= k < l < i && metrics[k].delta != null ==> metrics[k].delta != metrics[l].delta
    {
      var delta: Int64Ref? := null;
      if ms[i].delta.Some? {
        delta := new Int64Ref(ms[i].delta.value);
      }
      var m := new Metrics(fmt, ms[i].id, ms[i].mtype, delta, ms[i].value);
      metrics := metrics + [m];
    }
  }
}
