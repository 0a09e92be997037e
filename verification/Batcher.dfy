/**
 * The request log of a BatchPaxos replica (batchpaxos/batcher.go, types.go, util.go).
 *
 * The functions below say what the operations do to the log as a value; the
 * class refines them. The iteration order of a Go map is arbitrary: where a
 * result depends on it, the order is a parameter.
 */
module Batching {
  import opened Wrappers

  // Sequence numbers are uint32. The largest one is left out: the loops over a
  // range that ends there do not stop.
  const MAX_UINT32 := 0xFFFF_FFFF
  type Seq = x: int | 0 <= x < MAX_UINT32

  type Client = string

  datatype Request = Request(id: Client, seqNo: Seq, body: int)
  datatype ClientRange = ClientRange(start: Seq, stop: Seq)
  datatype LogEntry = LogEntry(values: map<Seq, Request>, highestSeen: Seq)
  datatype Batch = Batch(id: nat, hss: BatchPoint)

  type BatchPoint = map<Client, Seq>
  type RangeMap = map<Client, ClientRange>
  type UpdateValueMap = map<Client, seq<Request>>
  type ClientLog = map<Client, LogEntry>

  /** The zero value of a request. */
  const NO_REQUEST := Request("", 0, 0)

  // ----- Orders

  function Items(s: seq<Client>): set<Client> {
    set c | c in s
  }

  /** order lists every element of keys once. */
  ghost predicate Enumerates(order: seq<Client>, keys: set<Client>) {
    && (forall c :: c in order <==> c in keys)
    && forall i: nat, j: nat :: i < j < |order| ==> order[i] != order[j]
  }

  /** The order of Go strings. */
  predicate Before(a: Client, b: Client) {
    if b == "" then false
    else if a == "" then true
    else if a[0] != b[0] then a[0] < b[0]
    else Before(a[1..], b[1..])
  }

  lemma {:induction false} BeforeTotal(a: Client, b: Client)
    ensures a == b || Before(a, b) || Before(b, a)
    ensures !(Before(a, b) && Before(b, a))
  {
    if a != "" && b != "" && a[0] == b[0] {
      BeforeTotal(a[1..], b[1..]);
      assert a == [a[0]] + a[1..] && b == [b[0]] + b[1..];
    }
  }

  lemma {:induction false} BeforeTransitive(a: Client, b: Client, c: Client)
    requires Before(a, b) && Before(b, c)
    ensures Before(a, c)
  {
    if a != "" && a[0] == b[0] == c[0] {
      BeforeTransitive(a[1..], b[1..], c[1..]);
    }
  }

  predicate Ascending(ids: seq<Client>) {
    forall i: nat, j: nat :: i < j < |ids| ==> Before(ids[i], ids[j])
  }

  ghost predicate IsLeast(m: Client, s: set<Client>) {
    m in s && forall c :: c in s ==> c == m || Before(m, c)
  }

  lemma {:induction false} LeastExists(s: set<Client>)
    requires s != {}
    ensures exists m :: IsLeast(m, s)
    decreases s
  {
    var m :| m in s;
    var rest := s - {m};
    if rest == {} {
      assert s == rest + {m};
      assert IsLeast(m, s);
    } else {
      LeastExists(rest);
      var n :| IsLeast(n, rest);
      BeforeTotal(m, n);
      forall c | c in rest && Before(m, n)
        ensures Before(m, c)
      {
        if c != n {
          BeforeTransitive(m, n, c);
        }
      }
      assert IsLeast(if Before(m, n) then m else n, s);
    }
  }

  ghost function Least(s: set<Client>): (m: Client)
    requires s != {}
    ensures IsLeast(m, s)
  {
    LeastExists(s);
    var m :| IsLeast(m, s);
    m
  }

  /** The keys in increasing order. */
  ghost function SortedKeys(s: set<Client>): (ids: seq<Client>)
    ensures forall c :: c in ids <==> c in s
  {
    if s == {} then [] else [Least(s)] + SortedKeys(s - {Least(s)})
  }

  /** There is only one way to list a set in increasing order. */
  lemma {:induction false} SortedIsUnique(ids: seq<Client>, s: set<Client>)
    requires Ascending(ids) && forall c :: c in ids <==> c in s
    ensures ids == SortedKeys(s)
  {
    if ids == [] {
      assert s == {};
    } else {
      assert ids[0] in s;
      var m := Least(s);
      if ids[0] != m {
        assert m in ids;
        BeforeTotal(ids[0], m);
        assert false;
      }
      forall c
        ensures c in ids[1..] <==> c in s - {m}
      {
        if c in ids[1..] {
          BeforeTotal(m, m);
          assert c in ids && Before(m, c);
        }
      }
      SortedIsUnique(ids[1..], s - {m});
      assert ids == [m] + ids[1..];
    }
  }

  lemma {:induction false} SortedNoRepeat(s: set<Client>)
    ensures Enumerates(SortedKeys(s), s)
  {
    if s != {} {
      SortedNoRepeat(s - {Least(s)});
    }
  }

  /** sort.Strings. */
  method SortStrings(keys: seq<Client>) returns (ids: seq<Client>)
    requires Enumerates(keys, Items(keys))
    ensures Ascending(ids) && Items(ids) == Items(keys)
  {
    ids := [];
    for k := 0 to |keys|
      invariant Ascending(ids) && Items(ids) == Items(keys[..k])
    {
      assert keys[k] !in keys[..k];
      assert keys[k] !in Items(ids);
      ids := Insert(ids, keys[k]);
      assert keys[..k + 1] == keys[..k] + [keys[k]];
    }
    assert keys[..|keys|] == keys;
  }

  method Insert(ids: seq<Client>, key: Client) returns (more: seq<Client>)
    requires Ascending(ids) && key !in ids
    ensures Ascending(more) && Items(more) == Items(ids) + {key}
  {
    var j: nat := |ids|;
    while j > 0 && Before(key, ids[j - 1])
      invariant j <= |ids|
      invariant forall i: nat :: j <= i < |ids| ==> Before(key, ids[i])
    {
      j := j - 1;
    }
    forall i: nat | i < j
      ensures Before(ids[i], key)
    {
      BeforeTotal(key, ids[j - 1]);
      if i < j - 1 {
        BeforeTransitive(ids[i], ids[j - 1], key);
      }
    }
    more := ids[..j] + [key] + ids[j..];
    InsertedOk(ids, key, j);
  }

  lemma InsertedOk(ids: seq<Client>, key: Client, j: nat)
    requires Ascending(ids) && j <= |ids|
    requires forall i: nat :: i < j ==> Before(ids[i], key)
    requires forall i: nat :: j <= i < |ids| ==> Before(key, ids[i])
    ensures Ascending(ids[..j] + [key] + ids[j..])
    ensures Items(ids[..j] + [key] + ids[j..]) == Items(ids) + {key}
  {
    assert ids == ids[..j] + ids[j..];
  }

  method SortedKeysRange(m: RangeMap) returns (ids: seq<Client>)
    ensures ids == SortedKeys(m.Keys)
  {
    var keys: seq<Client> := [];
    var left := m.Keys;
    while left != {}
      invariant left <= m.Keys
      invariant Enumerates(keys, m.Keys - left)
      decreases left
    {
      var cid :| cid in left;
      keys, left := keys + [cid], left - {cid};
    }
    assert Items(keys) == m.Keys;
    ids := SortStrings(keys);
    assert forall c :: c in ids <==> c in Items(ids);
    SortedIsUnique(ids, m.Keys);
  }

  // ----- The log

  function EntryAt(log: ClientLog, c: Client): LogEntry {
    if c in log then log[c] else LogEntry(map[], 0)
  }

  /** Looking up the logs of some clients creates those that are missing. */
  function Touched(log: ClientLog, keys: set<Client>): ClientLog {
    map c | c in log.Keys + keys :: EntryAt(log, c)
  }

  function Logged(log: ClientLog, req: Request): ClientLog {
    var entry := EntryAt(log, req.id);
    log[req.id := LogEntry(entry.values[req.seqNo := req],
                           if req.seqNo > entry.highestSeen then req.seqNo else entry.highestSeen)]
  }

  function LoggedAll(log: ClientLog, reqs: seq<Request>): ClientLog
    decreases |reqs|
  {
    if reqs == [] then log else Logged(LoggedAll(log, reqs[..|reqs| - 1]), reqs[|reqs| - 1])
  }

  /** Logs the commands of the listed clients, in this order. */
  function LoggedFor(log: ClientLog, values: UpdateValueMap, order: seq<Client>): ClientLog
    requires forall c :: c in order ==> c in values
    decreases |order|
  {
    if order == [] then log
    else
      var n := |order| - 1;
      LoggedAll(LoggedFor(log, values, order[..n]), values[order[n]])
  }

  predicate HasRequest(log: ClientLog, c: Client, i: Seq) {
    i in EntryAt(log, c).values
  }

  function GetRequest(log: ClientLog, c: Client, i: Seq): Request {
    if HasRequest(log, c, i) then EntryAt(log, c).values[i] else NO_REQUEST
  }

  ghost predicate Complete(log: ClientLog, c: Client, r: ClientRange) {
    forall i: Seq :: r.start <= i <= r.stop ==> HasRequest(log, c, i)
  }

  ghost function Incomplete(log: ClientLog, ranges: RangeMap): RangeMap {
    map c | c in ranges && !Complete(log, c, ranges[c]) :: ranges[c]
  }

  /** The requests of one client from start up to but excluding end. */
  function RangeRequests(log: ClientLog, c: Client, start: nat, end: nat): seq<Request>
    requires end <= MAX_UINT32
    decreases end
  {
    if end <= start then [] else RangeRequests(log, c, start, end - 1) + [GetRequest(log, c, end - 1)]
  }

  function Listed(log: ClientLog, ranges: RangeMap, ids: seq<Client>): seq<Request>
    requires forall c :: c in ids ==> c in ranges
    decreases |ids|
  {
    if ids == [] then []
    else
      var n := |ids| - 1;
      Listed(log, ranges, ids[..n]) + RangeRequests(log, ids[n], ranges[ids[n]].start, ranges[ids[n]].stop + 1)
  }

  /** What ForEach passes to its callback: clients in order, then sequence numbers. */
  ghost function Listing(log: ClientLog, ranges: RangeMap): seq<Request> {
    Listed(log, ranges, SortedKeys(ranges.Keys))
  }

  /** rng.Stop - rng.Start + 1 on uint32. */
  function CommandCount(r: ClientRange): nat {
    (r.stop - r.start + 1) % 0x1_0000_0000
  }

  function Commands(log: ClientLog, c: Client, r: ClientRange): seq<Request> {
    seq(CommandCount(r), (k: nat) => if r.start + k <= r.stop then GetRequest(log, c, r.start + k) else NO_REQUEST)
  }

  function ClientCommands(log: ClientLog, ranges: RangeMap): UpdateValueMap {
    map c | c in ranges :: Commands(log, c, ranges[c])
  }

  function HighestSeen(log: ClientLog): BatchPoint {
    map c | c in log :: log[c].highestSeen
  }

  /** prevhss[cid] with the zero default of Go. */
  function HighestAt(hss: BatchPoint, c: Client): Seq {
    if c in hss then hss[c] else 0
  }

  ghost predicate Batchable(hss: BatchPoint, prev: BatchPoint) {
    |hss| > |prev| || exists c :: c in hss && hss[c] > HighestAt(prev, c)
  }

  function PreviousHss(batchMap: map<nat, Batch>, current: nat): BatchPoint {
    if current > 0 && current - 1 in batchMap then batchMap[current - 1].hss else map[]
  }

  /** The batch that is due: the first one when there are clients, later ones when the log has grown. */
  ghost function DueBatch(log: ClientLog, batchMap: map<nat, Batch>, current: nat): Option<Batch> {
    var hss := HighestSeen(log);
    if hss != map[] && (current == 0 || Batchable(hss, PreviousHss(batchMap, current)))
    then Some(Batch(current, hss))
    else None
  }

  class Batcher {
    var clog: ClientLog
    var batchMap: map<nat, Batch>
    var currentBatch: nat

    constructor ()
      ensures clog == map[] && batchMap == map[] && currentBatch == 0
    {
      clog, batchMap, currentBatch := map[], map[], 0;
    }

    /** Every batch below the current one is on record. */
    predicate Valid()
      reads this
    {
      forall b: nat :: b < currentBatch ==> b in batchMap
    }

    method GetLog(cid: Client) returns (entry: LogEntry)
      modifies `clog
      ensures entry == EntryAt(old(clog), cid)
      ensures clog == Touched(old(clog), {cid})
    {
      ghost var was := clog;
      if cid !in clog {
        clog := clog[cid := LogEntry(map[], 0)];
      }
      entry := clog[cid];
      assert clog == Touched(was, {cid});
    }

    method LogRequest(req: Request)
      modifies `clog
      ensures clog == Logged(old(clog), req)
    {
      var entry := GetLog(req.id);
      clog := clog[req.id := entry.(values := entry.values[req.seqNo := req])];
      if req.seqNo > entry.highestSeen {
        clog := clog[req.id := clog[req.id].(highestSeen := req.seqNo)];
      }
      assert clog == Logged(old(clog), req);
    }

    /** The inner loop of GetIncompleteRanges. */
    method IsComplete(entry: LogEntry, r: ClientRange) returns (complete: bool)
      ensures complete <==> forall i: Seq :: r.start <= i <= r.stop ==> i in entry.values
    {
      complete := true;
      var i: nat := r.start;
      while i <= r.stop
        invariant complete && r.start <= i
        invariant forall j: Seq :: r.start <= j < i && j <= r.stop ==> j in entry.values
      {
        if i !in entry.values {
          return false;
        }
        i := i + 1;
      }
    }

    method GetIncompleteRanges(ranges: RangeMap) returns (inc: RangeMap)
      modifies `clog
      ensures inc == Incomplete(old(clog), ranges)
      ensures clog == Touched(old(clog), ranges.Keys)
    {
      ghost var was := clog;
      inc := map[];
      var left := ranges.Keys;
      assert clog == Touched(was, ranges.Keys - left);
      while left != {}
        invariant left <= ranges.Keys
        invariant clog == Touched(was, ranges.Keys - left)
        invariant forall c :: c in inc <==> c in ranges.Keys - left && !Complete(was, c, ranges[c])
        invariant forall c :: c in inc ==> inc[c] == ranges[c]
        decreases left
      {
        var cid :| cid in left;
        var entry := GetLog(cid);
        var complete := IsComplete(entry, ranges[cid]);
        CompleteEntry(was, cid, ranges[cid], entry);
        if !complete {
          inc := inc[cid := ranges[cid]];
        }
        assert ranges.Keys - (left - {cid}) == (ranges.Keys - left) + {cid};
        left := left - {cid};
      }
      assert ranges.Keys - left == ranges.Keys;
    }

    method GetCurrentBatchPoint() returns (bp: BatchPoint)
      ensures bp == HighestSeen(clog)
    {
      bp := map[];
      var left := clog.Keys;
      while left != {}
        invariant left <= clog.Keys
        invariant bp == map c | c in clog.Keys - left :: clog[c].highestSeen
        decreases left
      {
        var cid :| cid in left;
        bp, left := bp[cid := clog[cid].highestSeen], left - {cid};
      }
    }

    /** Passes the requests to the callback, here by appending them to what it has seen. */
    method ForEach(ranges: RangeMap, seen: seq<Request>) returns (calls: seq<Request>)
      ensures calls == seen + Listing(clog, ranges)
    {
      var ids := SortedKeysRange(ranges);
      calls := ForClients(ids, ranges, seen);
    }

    method ForClients(ids: seq<Client>, ranges: RangeMap, seen: seq<Request>) returns (calls: seq<Request>)
      requires forall c :: c in ids ==> c in ranges
      ensures calls == seen + Listed(clog, ranges, ids)
    {
      calls := seen;
      for k := 0 to |ids|
        invariant calls == seen + Listed(clog, ranges, ids[..k])
      {
        ListedNext(clog, ranges, ids, k);
        calls := ForRange(ids[k], ranges[ids[k]], calls);
      }
      assert ids[..|ids|] == ids;
    }

    method ForRange(id: Client, r: ClientRange, seen: seq<Request>) returns (calls: seq<Request>)
      ensures calls == seen + RangeRequests(clog, id, r.start, r.stop + 1)
    {
      calls := seen;
      var i: nat := r.start;
      while i <= r.stop
        invariant r.start <= i && (i <= r.stop + 1 || i == r.start)
        invariant calls == seen + RangeRequests(clog, id, r.start, i)
      {
        calls := calls + [GetRequest(clog, id, i)];
        i := i + 1;
      }
    }

    method GetBatch() returns (batch: Option<Batch>)
      requires Valid()
      modifies `batchMap, `currentBatch
      ensures Valid()
      ensures batch == DueBatch(clog, old(batchMap), old(currentBatch))
      ensures batch.None? ==> batchMap == old(batchMap) && currentBatch == old(currentBatch)
      ensures batch.Some? ==>
                batchMap == old(batchMap)[old(currentBatch) := batch.value] && currentBatch == old(currentBatch) + 1
    {
      batch := None;
      var hss := GetCurrentBatchPoint();
      if |hss| == 0 {
        return;
      }
      var batchable := currentBatch == 0;
      if !batchable {
        var prevhss := batchMap[currentBatch - 1].hss;
        batchable := |hss| > |prevhss|;
        if !batchable {
          batchable := HasGrown(hss, prevhss);
        }
      }
      if batchable {
        var b := Batch(currentBatch, hss);
        batchMap := batchMap[currentBatch := b];
        currentBatch := currentBatch + 1;
        batch := Some(b);
      }
    }

    method HasGrown(hss: BatchPoint, prevhss: BatchPoint) returns (grown: bool)
      ensures grown <==> exists c :: c in hss && hss[c] > HighestAt(prevhss, c)
    {
      var left := hss.Keys;
      while left != {}
        invariant left <= hss.Keys
        invariant forall c :: c in hss.Keys - left ==> hss[c] <= HighestAt(prevhss, c)
        decreases left
      {
        var cid :| cid in left;
        if hss[cid] > HighestAt(prevhss, cid) {
          return true;
        }
        left := left - {cid};
      }
      return false;
    }

    method GetClientCommands(ranges: RangeMap) returns (ret: UpdateValueMap)
      ensures ret == ClientCommands(clog, ranges)
    {
      ret := map[];
      var left := ranges.Keys;
      while left != {}
        invariant left <= ranges.Keys
        invariant ret == map c | c in ranges.Keys - left :: Commands(clog, c, ranges[c])
        decreases left
      {
        var cid :| cid in left;
        var ccmds := CommandsOf(cid, ranges[cid]);
        ret, left := ret[cid := ccmds], left - {cid};
      }
    }

    method CommandsOf(cid: Client, r: ClientRange) returns (cmds: seq<Request>)
      ensures cmds == Commands(clog, cid, r)
    {
      var ccmds := new Request[CommandCount(r)](_ => NO_REQUEST);
      var i: nat := r.start;
      while i <= r.stop
        invariant r.start <= i && (i <= r.stop + 1 || i == r.start)
        invariant forall k: nat :: k < ccmds.Length ==>
                    ccmds[k] == if r.start + k < i then GetRequest(clog, cid, r.start + k) else NO_REQUEST
      {
        ccmds[i - r.start] := GetRequest(clog, cid, i);
        i := i + 1;
      }
      cmds := ccmds[..];
    }

    method SetClientCommands(cmdmap: UpdateValueMap, order: seq<Client>)
      requires Enumerates(order, cmdmap.Keys)
      modifies `clog
      ensures clog == LoggedFor(old(clog), cmdmap, order)
    {
      for k := 0 to |order|
        invariant clog == LoggedFor(old(clog), cmdmap, order[..k])
      {
        ghost var before := clog;
        var cmds := cmdmap[order[k]];
        for j := 0 to |cmds|
          invariant clog == LoggedAll(before, cmds[..j])
        {
          LogRequest(cmds[j]);
          assert cmds[..j + 1][..j] == cmds[..j];
        }
        assert cmds[..|cmds|] == cmds;
        assert order[..k + 1][..k] == order[..k];
      }
      assert order[..|order|] == order;
    }
  }

  lemma ListedNext(log: ClientLog, ranges: RangeMap, ids: seq<Client>, k: nat)
    requires k < |ids| && forall c :: c in ids ==> c in ranges
    ensures Listed(log, ranges, ids[..k + 1]) ==
              Listed(log, ranges, ids[..k]) + RangeRequests(log, ids[k], ranges[ids[k]].start, ranges[ids[k]].stop + 1)
  {
    assert ids[..k + 1][..k] == ids[..k];
  }

  lemma CompleteEntry(log: ClientLog, c: Client, r: ClientRange, entry: LogEntry)
    requires entry == EntryAt(log, c)
    ensures Complete(log, c, r) <==> forall i: Seq :: r.start <= i <= r.stop ==> i in entry.values
  {
    if Complete(log, c, r) {
      forall i: Seq | r.start <= i <= r.stop
        ensures i in entry.values
      {
        assert HasRequest(log, c, i);
      }
    }
  }
}
