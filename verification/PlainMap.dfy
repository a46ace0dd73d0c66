/** What both trees have to behave like: a plain map under insert, update and erase. */
module PlainMap {
  import opened Keys
  import opened Messages

  datatype Operation = InsertOp(key: Key, value: Value) | UpdateOp(key: Key, value: Value) | EraseOp(key: Key)

  /** What an operation does to a plain map. */
  function PlainStep(m: map<Key, Value>, op: Operation): map<Key, Value> {
    match op
    case InsertOp(k, v) => m[k := v]
    case UpdateOp(k, v) => if k in m then m[k := Add(m[k], v)] else m
    case EraseOp(k) => m - {k}
  }

  function PlainRun(m: map<Key, Value>, ops: seq<Operation>): map<Key, Value> {
    if ops == [] then m else PlainStep(PlainRun(m, ops[..|ops| - 1]), ops[|ops| - 1])
  }

  lemma PlainRunStart(m: map<Key, Value>, ops: seq<Operation>)
    ensures PlainRun(m, ops[..0]) == m
  {
  }

  lemma PlainRunNext(m: map<Key, Value>, ops: seq<Operation>, j: nat)
    requires j < |ops|
    ensures PlainRun(m, ops[..j + 1]) == PlainStep(PlainRun(m, ops[..j]), ops[j])
  {
    assert ops[..j + 1][..j] == ops[..j];
  }

  /** Since the last insertion or deletion of the key, every update of it has found it present. */
  predicate Settled(m: map<Key, Value>, ops: seq<Operation>, k: Key) {
    ops == [] ||
    var before := ops[..|ops| - 1];
    match ops[|ops| - 1]
    case InsertOp(q, _) => q == k || Settled(m, before, k)
    case UpdateOp(q, _) => (q == k ==> k in PlainRun(m, before)) && Settled(m, before, k)
    case EraseOp(q) => q == k || Settled(m, before, k)
  }

  /** Whether a key is settled after one more operation. */
  predicate StaysSettled(m: map<Key, Value>, op: Operation, k: Key, settled: bool) {
    match op
    case InsertOp(q, _) => q == k || settled
    case UpdateOp(q, _) => (q == k ==> k in m) && settled
    case EraseOp(q) => q == k || settled
  }

  lemma SettledNext(m: map<Key, Value>, ops: seq<Operation>, j: nat, k: Key)
    requires j < |ops|
    ensures Settled(m, ops[..j + 1], k) <==> StaysSettled(PlainRun(m, ops[..j]), ops[j], k, Settled(m, ops[..j], k))
  {
    assert ops[..j + 1][..j] == ops[..j];
  }

  /** An insertion of a present key with the value it has. */
  predicate Rewrites(m: map<Key, Value>, op: Operation) {
    op.InsertOp? && Get(m, op.key) == Some(op.value)
  }

  /** No insertion of a run rewrites a key. */
  ghost predicate NoRewrites(m: map<Key, Value>, ops: seq<Operation>) {
    forall j :: 0 <= j < |ops| ==> !Rewrites(PlainRun(m, ops[..j]), ops[j])
  }
}
