/** The two bounded sample stores: the live ring with its subscribers, and the persisted table. Both
    are views of everything that ever went in. */
module Samples {
  import opened Common

  // ---------------------------------------------------------------- suffixes and subsequences

  /** The last `n` items, or all of them. */
  function LastN<T>(s: seq<T>, n: nat): seq<T> { if |s| <= n then s else s[|s| - n..] }

  function Reverse<T>(s: seq<T>): (r: seq<T>)
    ensures |r| == |s| && forall i :: 0 <= i < |s| ==> r[i] == s[|s| - 1 - i]
  {
    if s == [] then [] else Reverse(s[1..]) + [s[0]]
  }

  predicate IsSuffix<T(==)>(a: seq<T>, b: seq<T>) { |a| <= |b| && b[|b| - |a|..] == a }

  /** Trimming as one goes is trimming once at the end. */
  lemma {:induction false} LastNAppend<T>(history: seq<T>, more: seq<T>, n: nat)
    ensures LastN(LastN(history, n) + more, n) == LastN(history + more, n)
  {
  }

  lemma {:induction false} SuffixSnoc<T>(a: seq<T>, b: seq<T>, x: T)
    requires IsSuffix(a, b)
    ensures IsSuffix(a + [x], b + [x])
  {
  }

  /** `a` is what is left of `b` after dropping some items. */
  predicate Subsequence<T(==)>(a: seq<T>, b: seq<T>)
    decreases |b|
  {
    a == []
    || (b != [] && ((a[|a| - 1] == b[|b| - 1] && Subsequence(a[..|a| - 1], b[..|b| - 1]))
                    || Subsequence(a, b[..|b| - 1])))
  }

  lemma {:induction false} SubsequenceSnoc<T>(a: seq<T>, b: seq<T>, x: T)
    requires Subsequence(a, b)
    ensures Subsequence(a + [x], b + [x]) && Subsequence(a, b + [x])
  {
    var a', b' := a + [x], b + [x];
    assert a'[..|a'| - 1] == a && b'[..|b'| - 1] == b;
  }

  /** In order: a subsequence picks items at increasing places. */
  lemma {:induction false} SubsequencePlaces<T>(a: seq<T>, b: seq<T>) returns (at: seq<nat>)
    requires Subsequence(a, b)
    ensures |at| == |a| && forall i :: 0 <= i < |a| ==> at[i] < |b| && b[at[i]] == a[i]
    ensures forall i, j :: 0 <= i < j < |a| ==> at[i] < at[j]
    decreases |b|
  {
    if a == [] {
      at := [];
    } else {
      var n := |b| - 1;
      if a[|a| - 1] == b[n] && Subsequence(a[..|a| - 1], b[..n]) {
        at := SubsequencePlaces(a[..|a| - 1], b[..n]);
        at := at + [n];
      } else {
        at := SubsequencePlaces(a, b[..n]);
      }
    }
  }

  // ---------------------------------------------------------------- subscribers

  /** A non-blocking put: a full queue loses the frame. A size of 0 or less means no bound. */
  predicate IsFull<T>(pending: seq<T>, maxsize: int) { 0 < maxsize <= |pending| }

  function Accepted<T>(pending: seq<T>, maxsize: int, x: T): seq<T> {
    if IsFull(pending, maxsize) then pending else pending + [x]
  }

  /** `offered` and `delivered` are the history: what was published since the queue was made, and what
      its reader has taken. */
  class Queue<T(==)> {
    const maxsize: int
    var pending: seq<T>
    ghost var offered: seq<T>
    ghost var delivered: seq<T>

    ghost predicate Valid()
      reads this
    {
      Subsequence(delivered + pending, offered) && (maxsize > 0 ==> |pending| <= maxsize)
    }

    constructor (maxsize: int)
      ensures Valid() && this.maxsize == maxsize && pending == [] && offered == [] && delivered == []
    {
      this.maxsize := maxsize;
      pending, offered, delivered := [], [], [];
    }

    method PutNowait(x: T) returns (ok: bool)
      requires Valid()
      modifies this
      ensures Valid() && (ok <==> maxsize <= 0 || |old(pending)| < maxsize)
      ensures pending == if ok then old(pending) + [x] else old(pending)
      ensures pending == Accepted(old(pending), maxsize, x)
      ensures offered == old(offered) + [x] && delivered == old(delivered)
    {
      ok := !IsFull(pending, maxsize);
      SubsequenceSnoc(delivered + pending, offered, x);
      if ok {
        assert delivered + (pending + [x]) == (delivered + pending) + [x];
        pending := pending + [x];
      }
      offered := offered + [x];
    }

    method Get() returns (x: T)
      requires Valid() && pending != []
      modifies this
      ensures Valid() && [x] + pending == old(pending)
      ensures delivered == old(delivered) + [x] && offered == old(offered)
    {
      x := pending[0];
      assert (delivered + [x]) + pending[1..] == delivered + pending;
      delivered := delivered + [x];
      pending := pending[1..];
    }
  }

  // ---------------------------------------------------------------- the live ring

  /** Python's `items[-limit:]`, for any integer. */
  function TailSlice<T>(items: seq<T>, limit: int): seq<T> {
    if limit > 0 then LastN(items, limit)
    else if -limit <= |items| then items[-limit..]
    else []
  }

  class TailBuffer<T(==)> {
    const maxlen: nat
    var items: seq<T>
    var subscribers: set<Queue<T>>
    ghost var history: seq<T>

    /** The ring is the end of everything published, and every subscriber was offered all that was
        published since it subscribed, of which it holds and has delivered an in-order part. */
    ghost predicate Valid()
      reads this, subscribers
    {
      items == LastN(history, maxlen)
      && forall q :: q in subscribers ==> q.Valid() && IsSuffix(q.offered, history)
    }

    constructor (maxlen: nat)
      ensures Valid() && this.maxlen == maxlen && history == [] && subscribers == {}
    {
      this.maxlen := maxlen;
      items, subscribers, history := [], {}, [];
    }

    /** Every subscriber is offered the record; none can hold the publisher up. */
    method Publish(record: T)
      requires Valid()
      modifies this, subscribers
      ensures Valid() && history == old(history) + [record] && subscribers == old(subscribers)
      ensures forall q :: q in subscribers ==>
                && q.pending == Accepted(old(q.pending), q.maxsize, record)
                && q.offered == old(q.offered) + [record] && q.delivered == old(q.delivered)
      ensures forall q :: q in subscribers && 0 < q.maxsize <= |old(q.pending)| ==> q.pending == old(q.pending)
      ensures forall q :: q in subscribers && !(0 < q.maxsize <= |old(q.pending)|) ==>
                q.pending == old(q.pending) + [record]
    {
      LastNAppend(history, [record], maxlen);
      items := LastN(items + [record], maxlen);
      history := history + [record];
      var todo := subscribers;
      while todo != {}
        invariant todo <= subscribers == old(subscribers)
        invariant items == LastN(history, maxlen) && history == old(history) + [record]
        invariant forall q :: q in subscribers ==> q.Valid() && IsSuffix(old(q.offered), old(history))
        invariant forall q :: q in todo ==> q.pending == old(q.pending) && q.offered == old(q.offered)
        invariant forall q :: q in subscribers - todo ==>
                    q.pending == Accepted(old(q.pending), q.maxsize, record) && q.offered == old(q.offered) + [record]
        invariant forall q :: q in subscribers ==> q.delivered == old(q.delivered)
        decreases |todo|
      {
        var queue :| queue in todo;
        var _ := queue.PutNowait(record);
        todo := todo - {queue};
      }
      forall q | q in subscribers ensures IsSuffix(q.offered, history) {
        SuffixSnoc(old(q.offered), old(history), record);
      }
    }

    method Recent(limit: int) returns (r: seq<T>)
      requires Valid()
      ensures r == Reverse(TailSlice(items, limit))
      ensures |r| == if limit > |items| || limit == 0 then |items| else if limit > 0 then limit
                     else if limit + |items| > 0 then limit + |items| else 0
      ensures forall i :: 0 <= i < |r| ==> r[i] == items[|items| - 1 - i]
      ensures limit >= 1 ==> r == Reverse(LastN(LastN(history, maxlen), limit))
    {
      r := Reverse(TailSlice(items, limit));
    }

    method Subscribe(maxsize: int) returns (queue: Queue<T>)
      requires Valid()
      modifies this`subscribers
      ensures Valid() && fresh(queue) && subscribers == old(subscribers) + {queue}
      ensures queue.maxsize == maxsize && queue.pending == [] && queue.offered == []
    {
      queue := new Queue(maxsize);
      subscribers := subscribers + {queue};
    }

    method Unsubscribe(queue: Queue<T>)
      requires Valid()
      modifies this`subscribers
      ensures Valid() && subscribers == old(subscribers) - {queue}
    {
      subscribers := subscribers - {queue};
    }
  }

  /** Asking for the last `limit` records gives them exactly when the limit is at least 1 or there are
      none: a limit of 0 gives everything. */
  lemma {:induction false} RecentIsLastN<T>(items: seq<T>, limit: nat)
    ensures TailSlice(items, limit) == LastN(items, limit) <==> limit >= 1 || items == []
    ensures TailSlice(items, 0) == items
  {
    if limit == 0 && items != [] {
      assert |LastN(items, 0)| == 0 && |TailSlice(items, 0)| > 0;
    }
  }

  // ---------------------------------------------------------------- the persisted table

  datatype Sample = Sample(
    decision: string, ruleId: Option<string>, node: Option<string>, fields: map<string, string>, raw: Option<string>)

  datatype Row = Row(id: int, sample: Sample)

  /** What is kept of a record: its raw text only when that is allowed. */
  function Stored(s: Sample, retainRaw: bool): Sample { if retainRaw then s else s.(raw := None) }

  function StoredAll(records: seq<Sample>, retainRaw: bool): (r: seq<Sample>)
    ensures |r| == |records|
  {
    seq(|records|, i requires 0 <= i < |records| => Stored(records[i], retainRaw))
  }

  /** What a stored sample has of the record it was made from: everything, the raw text only when that
      is allowed. */
  predicate KeptOf(s: Sample, record: Sample, retainRaw: bool) {
    && s.decision == record.decision && s.ruleId == record.ruleId && s.node == record.node
    && s.fields == record.fields && s.raw == if retainRaw then record.raw else None
  }

  /** The last of `samples` are what was kept of `records`, one by one, as far back as they go. */
  predicate EndKept(samples: seq<Sample>, records: seq<Sample>, retainRaw: bool) {
    forall i :: 0 <= i < |records| && |records| - i <= |samples| ==>
      KeptOf(samples[|samples| - |records| + i], records[i], retainRaw)
  }

  lemma {:induction false} StoredKept(records: seq<Sample>, retainRaw: bool, i: nat)
    requires i < |records|
    ensures KeptOf(StoredAll(records, retainRaw)[i], records[i], retainRaw)
  {
  }

  lemma {:induction false} EndStored(samples: seq<Sample>, records: seq<Sample>, retainRaw: bool)
    ensures EndKept(samples + StoredAll(records, retainRaw), records, retainRaw)
  {
    var stored := StoredAll(records, retainRaw);
    var all := samples + stored;
    forall i | 0 <= i < |records| ensures KeptOf(all[|all| - |records| + i], records[i], retainRaw) {
      assert all[|samples| + i] == stored[i];
      StoredKept(records, retainRaw, i);
    }
  }

  lemma {:induction false} EndOfSuffix(left: seq<Sample>, all: seq<Sample>, records: seq<Sample>, retainRaw: bool)
    requires IsSuffix(left, all) && EndKept(all, records, retainRaw)
    ensures EndKept(left, records, retainRaw)
  {
    var n := |all| - |left|;
    forall i | 0 <= i < |records| && |records| - i <= |left|
      ensures KeptOf(left[|left| - |records| + i], records[i], retainRaw)
    {
      assert left[|left| - |records| + i] == all[|all| - |records| + i];
    }
  }

  /** After an intake both the rows that are left and everything ever inserted end in the records. */
  lemma {:induction false} IntakeKept(rows: seq<Sample>, records: seq<Sample>, retainRaw: bool, maxEvents: int,
                                      left: seq<Sample>)
    requires left == Trimmed(rows + StoredAll(records, retainRaw), maxEvents)
    ensures EndKept(left, records, retainRaw)
  {
    EndStored(rows, records, retainRaw);
    EndOfSuffix(left, rows + StoredAll(records, retainRaw), records, retainRaw);
  }

  function SamplesOf(rows: seq<Row>): (r: seq<Sample>)
    ensures |r| == |rows|
  {
    seq(|rows|, i requires 0 <= i < |rows| => rows[i].sample)
  }

  predicate Ascending(rows: seq<Row>) { forall i, j :: 0 <= i < j < |rows| ==> rows[i].id < rows[j].id }

  /** Ids are handed out as one more than the highest in the table. */
  function NextId(rows: seq<Row>): int { if rows == [] then 1 else rows[|rows| - 1].id + 1 }

  function Above(rows: seq<Row>, cutoff: int): seq<Row> {
    if rows == [] then []
    else (if rows[0].id > cutoff then [rows[0]] else []) + Above(rows[1..], cutoff)
  }

  /** Deleting the ids up to the k-th smallest deletes exactly the k oldest rows. */
  lemma {:induction false} AboveDrops(rows: seq<Row>, k: nat, cutoff: int)
    requires Ascending(rows) && k <= |rows|
    requires forall i :: 0 <= i < |rows| ==> (rows[i].id > cutoff <==> i >= k)
    ensures Above(rows, cutoff) == rows[k..]
  {
    if rows != [] {
      if k == 0 {
        AboveDrops(rows[1..], 0, cutoff);
        assert rows == [rows[0]] + rows[1..];
      } else {
        AboveDrops(rows[1..], k - 1, cutoff);
        assert rows[1..][k - 1..] == rows[k..];
      }
    }
  }

  /** What an intake leaves of the samples: a limit below zero trims nothing. */
  function Trimmed(samples: seq<Sample>, maxEvents: int): seq<Sample> {
    if maxEvents < 0 then samples else LastN(samples, maxEvents)
  }

  lemma {:induction false} TrimmedAppend(history: seq<Sample>, more: seq<Sample>, maxEvents: int)
    ensures Trimmed(Trimmed(history, maxEvents) + more, maxEvents) == Trimmed(history + more, maxEvents)
  {
    if maxEvents >= 0 { LastNAppend(history, more, maxEvents); }
  }

  /** Inserting and trimming keeps a suffix a suffix, and the last `maxEvents` the last `maxEvents`. */
  lemma {:induction false} SuffixTrimmed(rows: seq<Sample>, history: seq<Sample>, more: seq<Sample>, maxEvents: int,
                                         left: seq<Sample>)
    requires IsSuffix(rows, history) && left == Trimmed(rows + more, maxEvents)
    ensures IsSuffix(left, history + more)
    ensures rows == Trimmed(history, maxEvents) ==> left == Trimmed(history + more, maxEvents)
  {
    SuffixStays(rows, history, more, maxEvents);
    TrimmedAppend(history, more, maxEvents);
  }

  lemma {:induction false} SuffixStays(rows: seq<Sample>, history: seq<Sample>, more: seq<Sample>, maxEvents: int)
    requires IsSuffix(rows, history)
    ensures IsSuffix(Trimmed(rows + more, maxEvents), history + more)
  {
    var kept, all := Trimmed(rows + more, maxEvents), history + more;
    assert all == history[..|history| - |rows|] + (rows + more);
    assert all[|all| - |kept|..] == kept;
  }

  /** Deleting up to the cutoff id leaves the last `maxEvents` rows. */
  lemma {:induction false} TrimmedRows(rows: seq<Row>, maxEvents: nat)
    requires Ascending(rows) && |rows| > maxEvents
    ensures var left := Above(rows, rows[|rows| - maxEvents - 1].id);
            Ascending(left) && SamplesOf(left) == Trimmed(SamplesOf(rows), maxEvents)
  {
    var excess := |rows| - maxEvents;
    AboveDrops(rows, excess, rows[excess - 1].id);
    SamplesDrop(rows, excess);
  }

  class SampleTable {
    var rows: seq<Row>
    ghost var inserted: seq<Sample>

    /** Ids ascend, and the rows are the end of everything ever inserted. */
    ghost predicate Valid()
      reads this
    {
      Ascending(rows) && IsSuffix(SamplesOf(rows), inserted)
    }

    /** The rows are the last `maxEvents` of everything ever inserted; all of it below zero. */
    ghost predicate Keeps(maxEvents: int)
      reads this
    {
      SamplesOf(rows) == Trimmed(inserted, maxEvents)
    }

    constructor ()
      ensures Valid() && rows == [] && inserted == []
      ensures forall m :: Keeps(m)
    {
      rows, inserted := [], [];
    }

    /** The limit comes with the call. While it stays the same, the table keeps the last that many of all
        that was ever inserted, however it was batched. */
    method RecordSamples(records: seq<Sample>, maxEvents: int, retainRaw: bool) returns (count: nat)
      requires Valid()
      modifies this
      ensures Valid() && count == |records|
      ensures inserted == old(inserted) + StoredAll(records, retainRaw)
      ensures |inserted| == |old(inserted)| + |records| && EndKept(inserted, records, retainRaw)
      ensures EndKept(SamplesOf(rows), records, retainRaw)
      ensures SamplesOf(rows) == Trimmed(SamplesOf(old(rows)) + StoredAll(records, retainRaw), maxEvents)
      ensures old(Keeps(maxEvents)) ==> Keeps(maxEvents)
    {
      count := 0;
      for i := 0 to |records|
        invariant Ascending(rows) && count == i && |rows| == |old(rows)| + i && inserted == old(inserted)
        invariant SamplesOf(rows) == SamplesOf(old(rows)) + StoredAll(records[..i], retainRaw)
      {
        StoredSnoc(records, i, retainRaw);
        SamplesSnoc(rows, Row(NextId(rows), Stored(records[i], retainRaw)));
        rows := rows + [Row(NextId(rows), Stored(records[i], retainRaw))];
        count := count + 1;
      }
      assert records[..|records|] == records;
      var total := |rows|;
      if total > maxEvents {
        var excess := total - maxEvents;
        if excess - 1 < total {
          TrimmedRows(rows, maxEvents);
          rows := Above(rows, rows[excess - 1].id);
        }
      }
      EndStored(inserted, records, retainRaw);
      IntakeKept(SamplesOf(old(rows)), records, retainRaw, maxEvents, SamplesOf(rows));
      inserted := inserted + StoredAll(records, retainRaw);
      SuffixTrimmed(SamplesOf(old(rows)), old(inserted), StoredAll(records, retainRaw), maxEvents, SamplesOf(rows));
    }

    /** Newest first, the last `limit` of everything ever inserted, as far as the table reaches back; a
        table that keeps `m` reaches back far enough for every limit up to `m`. */
    method LoadSamples(limit: int) returns (r: seq<Row>)
      requires Valid()
      ensures SamplesOf(r) == Reverse(LastN(inserted, Reach(limit, |rows|)))
      ensures |r| == (if 0 <= limit < |rows| then limit else |rows|)
      ensures |r| <= |inserted| && forall i :: 0 <= i < |r| ==> r[i].sample == inserted[|inserted| - 1 - i]
      ensures forall m :: Keeps(m) && 0 <= limit <= m ==> SamplesOf(r) == Reverse(LastN(inserted, limit))
    {
      r := Reverse(if limit < 0 then rows else LastN(rows, limit));
      Loaded(rows, inserted, limit);
      NewestAt(r, inserted, Reach(limit, |rows|));
      forall m | Keeps(m) && 0 <= limit <= m
        ensures LastN(inserted, Reach(limit, |rows|)) == LastN(inserted, limit)
      {
        KeptEnough(rows, inserted, m, limit);
      }
    }
  }

  /** How many of `n` rows a limit asks for; below zero all of them. */
  function Reach(limit: int, n: nat): nat { if 0 <= limit < n then limit else n }

  lemma {:induction false} Loaded(rows: seq<Row>, all: seq<Sample>, limit: int)
    requires IsSuffix(SamplesOf(rows), all)
    ensures SamplesOf(Reverse(if limit < 0 then rows else LastN(rows, limit))) ==
            Reverse(LastN(all, Reach(limit, |rows|)))
  {
    var last, n := if limit < 0 then rows else LastN(rows, limit), Reach(limit, |rows|);
    assert last == rows[|rows| - n..];
    SamplesReverse(last);
    SuffixRows(rows, all, n);
  }

  lemma {:induction false} NewestAt(r: seq<Row>, all: seq<Sample>, n: nat)
    requires n <= |all| && SamplesOf(r) == Reverse(LastN(all, n))
    ensures |r| == n && forall i :: 0 <= i < n ==> r[i].sample == all[|all| - 1 - i]
  {
    forall i | 0 <= i < n ensures r[i].sample == all[|all| - 1 - i] {
      assert SamplesOf(r)[i] == LastN(all, n)[n - 1 - i];
    }
  }

  lemma {:induction false} SuffixRows(rows: seq<Row>, all: seq<Sample>, n: nat)
    requires IsSuffix(SamplesOf(rows), all) && n <= |rows|
    ensures SamplesOf(rows[|rows| - n..]) == LastN(all, n)
  {
    SamplesDrop(rows, |rows| - n);
    SuffixLast(SamplesOf(rows), all, n);
  }

  /** A table that keeps the last `m` has the last `limit` of everything, for every limit up to `m`. */
  lemma {:induction false} KeptEnough(rows: seq<Row>, all: seq<Sample>, m: nat, limit: nat)
    requires SamplesOf(rows) == Trimmed(all, m) && limit <= m
    ensures LastN(all, Reach(limit, |rows|)) == LastN(all, limit)
  {
    assert |rows| == |Trimmed(all, m)|;
  }

  lemma {:induction false} SuffixLast(a: seq<Sample>, b: seq<Sample>, n: nat)
    requires IsSuffix(a, b) && n <= |a|
    ensures LastN(b, n) == a[|a| - n..]
  {
  }

  lemma {:induction false} SamplesReverse(rows: seq<Row>)
    ensures SamplesOf(Reverse(rows)) == Reverse(SamplesOf(rows))
  {
    forall i | 0 <= i < |rows| ensures SamplesOf(Reverse(rows))[i] == Reverse(SamplesOf(rows))[i] {}
  }

  lemma {:induction false} StoredSnoc(records: seq<Sample>, i: nat, retainRaw: bool)
    requires i < |records|
    ensures StoredAll(records[..i + 1], retainRaw) == StoredAll(records[..i], retainRaw) + [Stored(records[i], retainRaw)]
  {
  }

  lemma {:induction false} SamplesSnoc(rows: seq<Row>, r: Row)
    ensures SamplesOf(rows + [r]) == SamplesOf(rows) + [r.sample]
  {
  }

  lemma {:induction false} SamplesDrop(rows: seq<Row>, k: nat)
    requires k <= |rows|
    ensures SamplesOf(rows[k..]) == SamplesOf(rows)[k..]
  {
  }

  // ---------------------------------------------------------------- intake

  /** One posted batch: every record goes to the live ring in order, then the batch to the table. */
  method IntakeBatch(buffer: TailBuffer<Sample>, table: SampleTable, records: seq<Sample>, maxEvents: int,
                     retainRaw: bool)
    requires buffer.Valid() && table.Valid()
    modifies buffer, buffer.subscribers, table
    ensures buffer.Valid() && table.Valid()
    ensures buffer.history == old(buffer.history) + records && buffer.subscribers == old(buffer.subscribers)
    ensures forall q :: q in buffer.subscribers ==>
              q.offered == old(q.offered) + records && q.delivered == old(q.delivered)
    ensures table.inserted == old(table.inserted) + StoredAll(records, retainRaw)
    ensures EndKept(table.inserted, records, retainRaw) && EndKept(SamplesOf(table.rows), records, retainRaw)
    ensures SamplesOf(table.rows) == Trimmed(SamplesOf(old(table.rows)) + StoredAll(records, retainRaw), maxEvents)
    ensures old(table.Keeps(maxEvents)) ==> table.Keeps(maxEvents)
  {
    for i := 0 to |records|
      invariant buffer.Valid() && table.Valid() && table.rows == old(table.rows) && table.inserted == old(table.inserted)
      invariant buffer.subscribers == old(buffer.subscribers)
      invariant buffer.history == old(buffer.history) + records[..i]
      invariant forall q :: q in buffer.subscribers ==>
                  q.offered == old(q.offered) + records[..i] && q.delivered == old(q.delivered)
    {
      buffer.Publish(records[i]);
      assert records[..i + 1] == records[..i] + [records[i]];
    }
    assert records[..|records|] == records;
    var _ := table.RecordSamples(records, maxEvents, retainRaw);
  }
}
