/**
 The simple loader and the token-deduplicating destination: a batch is cut into write units, every
 unit carries a deterministic token, and a token is accepted once.
 */
module Loading {
  import opened Digest
  import opened Batching

  /** `batchId:unit`; the batch id has a fixed length, so the pair is the text. */
  datatype Token = Token(batchId: Digest, unit: nat)

  datatype Insert = Insert(token: Token, rows: seq<Row>)

  function SliceEnd(rows: seq<Row>, offset: nat, maxRows: nat): (end: nat)
    requires offset <= |rows|
    ensures offset <= end <= |rows|
  {
    if offset + maxRows <= |rows| then offset + maxRows else |rows|
  }

  /** The inserts of a batch from one write unit on. */
  function InsertsFrom(batchId: Digest, rows: seq<Row>, maxRows: nat, offset: nat, unit: nat): seq<Insert>
    requires maxRows > 0
    decreases |rows| - offset
  {
    if offset >= |rows| then []
    else
      [Insert(Token(batchId, unit), rows[offset..SliceEnd(rows, offset, maxRows)])]
      + InsertsFrom(batchId, rows, maxRows, offset + maxRows, unit + 1)
  }

  function InsertsOf(batchId: Digest, rows: seq<Row>, maxRows: nat): seq<Insert>
    requires maxRows > 0
  {
    InsertsFrom(batchId, rows, maxRows, 0, 0)
  }

  /** The rows of inserts, in order. */
  function RowsOf(log: seq<Insert>): seq<Row> {
    if log == [] then [] else log[0].rows + RowsOf(log[1..])
  }

  lemma {:induction false} InsertsFromShape(batchId: Digest, rows: seq<Row>, maxRows: nat, offset: nat, unit: nat, k: nat)
    requires maxRows > 0 && k < |InsertsFrom(batchId, rows, maxRows, offset, unit)|
    ensures InsertsFrom(batchId, rows, maxRows, offset, unit)[k].token == Token(batchId, unit + k)
    ensures 0 < |InsertsFrom(batchId, rows, maxRows, offset, unit)[k].rows| <= maxRows
    decreases k
  {
    if k > 0 {
      InsertsFromShape(batchId, rows, maxRows, offset + maxRows, unit + 1, k - 1);
    }
  }

  lemma {:induction false} InsertsFromRows(batchId: Digest, rows: seq<Row>, maxRows: nat, offset: nat, unit: nat)
    requires maxRows > 0 && offset <= |rows|
    ensures RowsOf(InsertsFrom(batchId, rows, maxRows, offset, unit)) == rows[offset..]
    decreases |rows| - offset
  {
    if offset < |rows| {
      var end := SliceEnd(rows, offset, maxRows);
      var all := InsertsFrom(batchId, rows, maxRows, offset, unit);
      assert all[1..] == InsertsFrom(batchId, rows, maxRows, offset + maxRows, unit + 1);
      if offset + maxRows <= |rows| {
        InsertsFromRows(batchId, rows, maxRows, offset + maxRows, unit + 1);
      }
      assert rows[offset..] == rows[offset..end] + rows[end..];
    }
  }

  /** The units of a batch: its rows cut in order, numbered tokens, none empty, none above the limit. */
  lemma InsertsCoverBatch(batchId: Digest, rows: seq<Row>, maxRows: nat)
    requires maxRows > 0
    ensures RowsOf(InsertsOf(batchId, rows, maxRows)) == rows
    ensures forall k :: 0 <= k < |InsertsOf(batchId, rows, maxRows)| ==>
      InsertsOf(batchId, rows, maxRows)[k].token == Token(batchId, k)
      && 0 < |InsertsOf(batchId, rows, maxRows)[k].rows| <= maxRows
  {
    InsertsFromRows(batchId, rows, maxRows, 0, 0);
    forall k | 0 <= k < |InsertsOf(batchId, rows, maxRows)|
      ensures InsertsOf(batchId, rows, maxRows)[k].token == Token(batchId, k)
      ensures 0 < |InsertsOf(batchId, rows, maxRows)[k].rows| <= maxRows
    {
      InsertsFromShape(batchId, rows, maxRows, 0, 0, k);
    }
  }

  // ----- the destination -----

  /** The destination: the tokens it accepted and the inserts it kept, in order. */
  datatype Dest = Dest(tokens: set<Token>, log: seq<Insert>)

  const NO_ROWS := Dest({}, [])

  /** One insert reaches the destination. */
  function Deliver(d: Dest, x: Insert): Dest {
    if x.token in d.tokens then d else Dest(d.tokens + {x.token}, d.log + [x])
  }

  /** The first `k` of these inserts reach the destination, in order. */
  function DeliverUpTo(d: Dest, xs: seq<Insert>, k: nat): Dest
    requires k <= |xs|
  {
    if k == 0 then d else Deliver(DeliverUpTo(d, xs, k - 1), xs[k - 1])
  }

  lemma {:induction false} DeliveredTokens(d: Dest, xs: seq<Insert>, k: nat, i: nat)
    requires i < k <= |xs|
    ensures xs[i].token in DeliverUpTo(d, xs, k).tokens
  {
    if i < k - 1 {
      DeliveredTokens(d, xs, k - 1, i);
    }
  }

  /** A replay after any partial write leaves what a single uninterrupted write leaves. */
  lemma {:induction false} ReplayAfterPartialWrite(d: Dest, xs: seq<Insert>, k: nat, j: nat)
    requires k <= |xs| && j <= |xs|
    ensures DeliverUpTo(DeliverUpTo(d, xs, k), xs, j) == DeliverUpTo(d, xs, if j <= k then k else j)
  {
    if j > 0 {
      ReplayAfterPartialWrite(d, xs, k, j - 1);
      if j <= k {
        DeliveredTokens(d, xs, k, j - 1);
      }
    }
  }

  /** The in-memory destination: the token list and the table grow together, a known token is dropped. */
  class MemoryDestination {
    var tokens: set<Token>
    var log: seq<Insert>

    ghost function Contents(): Dest
      reads this
    {
      Dest(tokens, log)
    }

    constructor ()
      ensures Contents() == NO_ROWS
    {
      tokens, log := {}, [];
    }

    method Insert(x: Insert)
      modifies this
      ensures Contents() == Deliver(old(Contents()), x)
    {
      if x.token in tokens {
        return;
      }
      tokens := tokens + {x.token};
      log := log + [x];
    }
  }

  // ----- the loader -----

  /** What happens to one insert call: it lands and returns, lands and throws, or only throws. */
  datatype Fate = Acknowledged | AckLost | NeverSent

  datatype Receipt = Receipt(noneRequired: bool, rows: nat, writeUnits: nat)

  function FateOf(fates: seq<Fate>, unit: nat): Fate {
    if unit < |fates| then fates[unit] else Acknowledged
  }

  /** How many of these units, the first of them numbered `unit`, reach the destination. */
  function Landing(n: nat, fates: seq<Fate>, unit: nat): (k: nat)
    ensures k <= n
  {
    if n == 0 then 0
    else
      match FateOf(fates, unit)
      case Acknowledged => 1 + Landing(n - 1, fates, unit + 1)
      case AckLost => 1
      case NeverSent => 0
  }

  /** Every one of these units is acknowledged. */
  predicate AllAcknowledged(n: nat, fates: seq<Fate>, unit: nat) {
    n == 0 || (FateOf(fates, unit).Acknowledged? && AllAcknowledged(n - 1, fates, unit + 1))
  }

  /** Delivering behind units already delivered. */
  lemma {:induction false} DeliverBehind(d: Dest, x: Insert, xs: seq<Insert>, k: nat)
    requires k <= |xs|
    ensures DeliverUpTo(d, [x] + xs, k + 1) == DeliverUpTo(Deliver(d, x), xs, k)
  {
    if k == 0 {
      assert DeliverUpTo(d, [x] + xs, 1) == Deliver(DeliverUpTo(d, [x] + xs, 0), x);
    } else {
      DeliverBehind(d, x, xs, k - 1);
    }
  }

  /** What is still to come when the loop stands at one unit. */
  function Remaining(d: Dest, xs: seq<Insert>, fates: seq<Fate>, unit: nat): Dest {
    DeliverUpTo(d, xs, Landing(|xs|, fates, unit))
  }

  lemma RemainingStep(d: Dest, xs: seq<Insert>, fates: seq<Fate>, unit: nat)
    requires xs != []
    ensures match FateOf(fates, unit)
      case Acknowledged => Remaining(d, xs, fates, unit) == Remaining(Deliver(d, xs[0]), xs[1..], fates, unit + 1)
      case AckLost => Remaining(d, xs, fates, unit) == Deliver(d, xs[0])
      case NeverSent => Remaining(d, xs, fates, unit) == d
  {
    assert xs == [xs[0]] + xs[1..];
    if FateOf(fates, unit).Acknowledged? {
      DeliverBehind(d, xs[0], xs[1..], Landing(|xs| - 1, fates, unit + 1));
    } else if FateOf(fates, unit).AckLost? {
      DeliverBehind(d, xs[0], xs[1..], 0);
    }
  }

  /**
   `write` and `finalize` of the simple loader; `fates` says what happens to the insert of each unit.
   The load succeeds exactly when every unit is acknowledged, and otherwise leaves a prefix.
   */
  method Load(dest: MemoryDestination, batchId: Digest, rows: seq<Row>, maxRows: nat, fates: seq<Fate>)
    returns (ok: bool, receipt: Receipt)
    requires maxRows > 0
    modifies dest
    ensures dest.Contents() == Remaining(old(dest.Contents()), InsertsOf(batchId, rows, maxRows), fates, 0)
    ensures ok <==> AllAcknowledged(|InsertsOf(batchId, rows, maxRows)|, fates, 0)
    ensures ok ==> receipt == Receipt(|rows| == 0, |rows|, |InsertsOf(batchId, rows, maxRows)|)
  {
    var offset, unit, written := 0, 0, 0;
    ghost var all, left := InsertsOf(batchId, rows, maxRows), InsertsOf(batchId, rows, maxRows);
    ghost var before := dest.Contents();
    while offset < |rows|
      invariant left == InsertsFrom(batchId, rows, maxRows, offset, unit) && unit + |left| == |all|
      invariant written == if offset < |rows| then offset else |rows|
      invariant Remaining(dest.Contents(), left, fates, unit) == Remaining(before, all, fates, 0)
      invariant AllAcknowledged(|left|, fates, unit) == AllAcknowledged(|all|, fates, 0)
    {
      RemainingStep(dest.Contents(), left, fates, unit);
      var slice := rows[offset..SliceEnd(rows, offset, maxRows)];
      if FateOf(fates, unit).NeverSent? {
        ok, receipt := false, Receipt(true, 0, 0);
        return;
      }
      dest.Insert(Insert(Token(batchId, unit), slice));
      if FateOf(fates, unit).AckLost? {
        ok, receipt := false, Receipt(true, 0, 0);
        return;
      }
      left := left[1..];
      written := written + |slice|;
      offset, unit := offset + maxRows, unit + 1;
    }
    ok, receipt := true, Receipt(unit == 0, written, unit);
  }
}
