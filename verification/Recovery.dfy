/**
 Placing again the holds, and carrying out again the erasures, of a rewound period
 (`cmd/hubctl/HoldReplace.go`, `ErasureReapply.go`): records read from a source go in batches, and
 a run cut short is run again.
 */
module Recovery {
  import opened Wrappers

  const BATCH := 1000

  datatype Record<B> = Record(id: string, body: B)

  /** What the server holds, by identifier. */
  type Table<B> = map<string, B>

  /** The operation takes a record whose identifier it does not hold, and leaves one it holds as it is. */
  function Placed<B>(t: Table<B>, r: Record<B>): Table<B> { if r.id in t then t else t[r.id := r.body] }

  function PlacedAll<B>(t: Table<B>, rs: seq<Record<B>>): Table<B> {
    if rs == [] then t else Placed(PlacedAll(t, rs[..|rs| - 1]), rs[|rs| - 1])
  }

  /** What is said of each record: whether it was new. */
  datatype Answer = Answer(id: string, placed: bool)

  function AnswersTo<B>(t: Table<B>, rs: seq<Record<B>>): seq<Answer> {
    if rs == [] then []
    else
      var r := rs[|rs| - 1];
      AnswersTo(t, rs[..|rs| - 1]) + [Said(PlacedAll(t, rs[..|rs| - 1]), r)]
  }

  function Concat<B>(batches: seq<seq<Record<B>>>): seq<Record<B>> {
    if batches == [] then [] else Concat(batches[..|batches| - 1]) + batches[|batches| - 1]
  }

  // ---------------------------------------------------------------- one after the other

  lemma {:induction false} PlacedInTurn<B>(t: Table<B>, a: seq<Record<B>>, b: seq<Record<B>>)
    ensures PlacedAll(t, a + b) == PlacedAll(PlacedAll(t, a), b)
  {
    if b == [] {
      assert a + b == a;
    } else {
      var front, last := b[..|b| - 1], b[|b| - 1];
      PlacedInTurn(t, a, front);
      assert a + b == (a + front) + [last];
      OneMoreRecord(t, a + front, last);
    }
  }

  lemma {:induction false} AnsweredInTurn<B>(t: Table<B>, a: seq<Record<B>>, b: seq<Record<B>>)
    ensures AnswersTo(t, a + b) == AnswersTo(t, a) + AnswersTo(PlacedAll(t, a), b)
  {
    if b == [] {
      assert a + b == a && AnswersTo(t, a) + [] == AnswersTo(t, a);
    } else {
      var front, last := b[..|b| - 1], b[|b| - 1];
      AnsweredInTurn(t, a, front);
      AnsweredNext(t, a, front, last);
      assert b == front + [last];
    }
  }

  lemma AnsweredNext<B>(t: Table<B>, a: seq<Record<B>>, b: seq<Record<B>>, r: Record<B>)
    requires AnswersTo(t, a + b) == AnswersTo(t, a) + AnswersTo(PlacedAll(t, a), b)
    ensures AnswersTo(t, a + (b + [r])) == AnswersTo(t, a) + AnswersTo(PlacedAll(t, a), b + [r])
  {
    assert a + (b + [r]) == (a + b) + [r];
    PlacedInTurn(t, a, b);
    OneMoreRecord(t, a + b, r);
    OneMoreRecord(PlacedAll(t, a), b, r);
    InTurn(AnswersTo(t, a), AnswersTo(PlacedAll(t, a), b), Said(PlacedAll(t, a + b), r));
  }

  lemma PlacedOneAfterTheOther<B>(t: Table<B>, a: seq<Record<B>>, b: seq<Record<B>>)
    ensures PlacedAll(t, a + b) == PlacedAll(PlacedAll(t, a), b)
    ensures AnswersTo(t, a + b) == AnswersTo(t, a) + AnswersTo(PlacedAll(t, a), b)
  {
    PlacedInTurn(t, a, b);
    AnsweredInTurn(t, a, b);
  }

  function Said<B>(t: Table<B>, r: Record<B>): Answer { Answer(r.id, r.id !in t) }

  lemma OneMoreRecord<B>(t: Table<B>, rs: seq<Record<B>>, r: Record<B>)
    ensures PlacedAll(t, rs + [r]) == Placed(PlacedAll(t, rs), r)
    ensures AnswersTo(t, rs + [r]) == AnswersTo(t, rs) + [Said(PlacedAll(t, rs), r)]
  {
    assert (rs + [r])[..|rs|] == rs;
  }

  lemma InTurn(a: seq<Answer>, b: seq<Answer>, x: Answer)
    ensures a + b + [x] == a + (b + [x])
  {}

  lemma {:induction false} PlacedHolds<B>(t: Table<B>, rs: seq<Record<B>>)
    ensures t.Keys <= PlacedAll(t, rs).Keys && forall r | r in rs :: r.id in PlacedAll(t, rs)
  {
    if rs != [] {
      PlacedHolds(t, rs[..|rs| - 1]);
      assert forall r | r in rs :: r in rs[..|rs| - 1] || r == rs[|rs| - 1];
    }
  }

  /** No record in front of `rs[k]` has its identifier, and the table did not hold it. */
  predicate IsNew<B>(t: Table<B>, rs: seq<Record<B>>, k: nat)
    requires k < |rs|
  {
    rs[k].id !in t && forall j: nat | j < k :: rs[j].id != rs[k].id
  }

  /** Each record is answered under its own identifier, as placed exactly where it is the first of it. */
  lemma {:induction false} AnswersSay<B>(t: Table<B>, rs: seq<Record<B>>, k: nat)
    requires k < |rs|
    ensures |AnswersTo(t, rs)| == |rs|
    ensures AnswersTo(t, rs)[k] == Answer(rs[k].id, IsNew(t, rs, k))
    ensures IsNew(t, rs, k) ==> rs[k].id in PlacedAll(t, rs) && PlacedAll(t, rs)[rs[k].id] == rs[k].body
    ensures rs[k].id in t ==> rs[k].id in PlacedAll(t, rs) && PlacedAll(t, rs)[rs[k].id] == t[rs[k].id]
  {
    var front := rs[..|rs| - 1];
    HoldsExactly(t, front, rs[|rs| - 1].id);
    AnswersCount(t, front);
    if k < |front| {
      AnswersSay(t, front, k);
    } else {
      assert IsNew(t, rs, k) <==> rs[k].id !in PlacedAll(t, front);
    }
  }

  lemma {:induction false} AnswersCount<B>(t: Table<B>, rs: seq<Record<B>>)
    ensures |AnswersTo(t, rs)| == |rs|
  {
    if rs != [] { AnswersCount(t, rs[..|rs| - 1]); }
  }

  /** Nothing is held but what was, and what was placed. */
  lemma {:induction false} HoldsExactly<B>(t: Table<B>, rs: seq<Record<B>>, id: string)
    ensures id in PlacedAll(t, rs) <==> id in t || exists j: nat :: j < |rs| && rs[j].id == id
    ensures id in t ==> id in PlacedAll(t, rs) && PlacedAll(t, rs)[id] == t[id]
  {
    if rs != [] {
      var front := rs[..|rs| - 1];
      HoldsExactly(t, front, id);
      assert forall j: nat | j < |front| :: rs[j] == front[j];
    }
  }

  /** Records it holds already change nothing. */
  lemma {:induction false} AgainIsNothing<B>(t: Table<B>, rs: seq<Record<B>>)
    requires forall r | r in rs :: r.id in t
    ensures PlacedAll(t, rs) == t
    ensures forall a | a in AnswersTo(t, rs) :: !a.placed
  {
    if rs != [] {
      AgainIsNothing(t, rs[..|rs| - 1]);
      assert rs[|rs| - 1] in rs;
    }
  }

  /** A longer run after a shorter one leaves what the longer one alone would. */
  lemma RunAgain<B>(t: Table<B>, rs: seq<Record<B>>, m: nat, n: nat)
    requires m <= |rs| && n <= |rs|
    ensures PlacedAll(PlacedAll(t, rs[..m]), rs[..n]) == PlacedAll(t, rs[..if m < n then n else m])
  {
    var t' := PlacedAll(t, rs[..m]);
    PlacedHolds(t, rs[..m]);
    if n <= m {
      assert forall r | r in rs[..n] :: r in rs[..m];
      AgainIsNothing(t', rs[..n]);
    } else {
      assert rs[..n] == rs[..m] + rs[m..n];
      PlacedOneAfterTheOther(t', rs[..m], rs[m..n]);
      AgainIsNothing(t', rs[..m]);
      PlacedOneAfterTheOther(t, rs[..m], rs[m..n]);
    }
  }

  function Least(a: nat, b: nat): nat { if a < b then a else b }

  /** Runs cut short after so many records each, one after the other. */
  function CutShort<B>(t: Table<B>, rs: seq<Record<B>>, cuts: seq<nat>): Table<B> {
    if cuts == [] then t else PlacedAll(CutShort(t, rs, cuts[..|cuts| - 1]), rs[..Least(cuts[|cuts| - 1], |rs|)])
  }

  function Furthest(cuts: seq<nat>): nat {
    if cuts == [] then 0
    else
      var before, last := Furthest(cuts[..|cuts| - 1]), cuts[|cuts| - 1];
      if before < last then last else before
  }

  lemma {:induction false} CutShortIsTheFurthest<B>(t: Table<B>, rs: seq<Record<B>>, cuts: seq<nat>)
    ensures CutShort(t, rs, cuts) == PlacedAll(t, rs[..Least(Furthest(cuts), |rs|)])
  {
    if cuts != [] {
      var front := cuts[..|cuts| - 1];
      CutShortIsTheFurthest(t, rs, front);
      RunAgain(t, rs, Least(Furthest(front), |rs|), Least(cuts[|cuts| - 1], |rs|));
    }
  }

  /**
   However often a run was cut short, and wherever, a whole run after them leaves the same table as
   one uninterrupted run.
   */
  lemma ResumedIsUninterrupted<B>(t: Table<B>, rs: seq<Record<B>>, cuts: seq<nat>)
    ensures PlacedAll(CutShort(t, rs, cuts), rs) == PlacedAll(t, rs)
  {
    CutShortIsTheFurthest(t, rs, cuts);
    RunAgain(t, rs, Least(Furthest(cuts), |rs|), |rs|);
    assert rs[..|rs|] == rs;
  }

  // ---------------------------------------------------------------- the loop

  /** A call's way: answered, or failed with so many of its records in effect. */
  datatype Fate = Answered | Broken(applied: nat)

  predicate IsBatching<B>(batches: seq<seq<Record<B>>>) {
    forall i | 0 <= i < |batches| :: 0 < |batches[i]| <= BATCH && (i < |batches| - 1 ==> |batches[i]| == BATCH)
  }

  /** What the loop has once the first `n` records are sent. */
  ghost predicate ReplayedTo<B>(
    t: Table<B>, rs: seq<Record<B>>, n: nat, table: Table<B>, sent: seq<seq<Record<B>>>, answers: seq<Answer>)
    requires n <= |rs|
  {
    Concat(sent) == rs[..n] && table == PlacedAll(t, rs[..n]) && answers == AnswersTo(t, rs[..n])
  }

  lemma NextBatch<B>(
    t: Table<B>, rs: seq<Record<B>>, start: nat, end: nat, table: Table<B>, sent: seq<seq<Record<B>>>,
    answers: seq<Answer>)
    requires start <= end <= |rs| && ReplayedTo(t, rs, start, table, sent, answers)
    ensures var batch := rs[start..end];
            ReplayedTo(t, rs, end, PlacedAll(table, batch), sent + [batch], answers + AnswersTo(table, batch))
  {
    var batch := rs[start..end];
    assert rs[..start] + batch == rs[..end];
    PlacedOneAfterTheOther(t, rs[..start], batch);
    ConcatNext(rs, start, end, sent);
  }

  lemma PartOfABatch<B>(t: Table<B>, rs: seq<Record<B>>, start: nat, end: nat, n: nat)
    requires start <= end <= |rs| && n <= end - start
    ensures PlacedAll(PlacedAll(t, rs[..start]), rs[start..end][..n]) == PlacedAll(t, rs[..start + n])
  {
    assert rs[..start] + rs[start..end][..n] == rs[..start + n];
    PlacedOneAfterTheOther(t, rs[..start], rs[start..end][..n]);
  }

  /** How much of a batch is in effect. */
  function InEffect<B>(batch: seq<Record<B>>, fate: Fate): seq<Record<B>> {
    if fate.Answered? then batch else batch[..Least(fate.applied, |batch|)]
  }

  /** What an answered batch leaves, and a broken one. */
  ghost predicate After<B>(
    t: Table<B>, rs: seq<Record<B>>, start: nat, end: nat, fate: Fate,
    table: Table<B>, sent: seq<seq<Record<B>>>, answers: seq<Answer>)
    requires start <= end <= |rs|
  {
    if fate.Answered? then ReplayedTo(t, rs, end, table, sent, answers)
    else Concat(sent) == rs[..end] && table == PlacedAll(t, rs[..start + Least(fate.applied, end - start)])
  }

  lemma AfterPost<B>(
    t: Table<B>, rs: seq<Record<B>>, start: nat, end: nat, fate: Fate,
    table: Table<B>, sent: seq<seq<Record<B>>>, answers: seq<Answer>)
    requires start <= end <= |rs| && ReplayedTo(t, rs, start, table, sent, answers)
    ensures var batch := rs[start..end];
            After(t, rs, start, end, fate, PlacedAll(table, InEffect(batch, fate)), sent + [batch],
                  answers + AnswersTo(table, batch))
  {
    if fate.Answered? {
      NextBatch(t, rs, start, end, table, sent, answers);
    } else {
      PartOfABatch(t, rs, start, end, Least(fate.applied, end - start));
      ConcatNext(rs, start, end, sent);
    }
  }

  lemma ConcatNext<B>(rs: seq<Record<B>>, start: nat, end: nat, sent: seq<seq<Record<B>>>)
    requires start <= end <= |rs| && Concat(sent) == rs[..start]
    ensures Concat(sent + [rs[start..end]]) == rs[..end]
  {
    assert (sent + [rs[start..end]])[..|sent|] == sent;
    assert rs[..start] + rs[start..end] == rs[..end];
  }

  ghost predicate AllAnswered(fates: nat -> Fate, n: nat) { forall k: nat | k < n :: fates(k).Answered? }

  class Operation<B> {
    var table: Table<B>
    var sent: seq<seq<Record<B>>>   // the batches, in order

    constructor (table: Table<B>)
      ensures this.table == table && sent == []
    {
      this.table, sent := table, [];
    }

    method Post(batch: seq<Record<B>>, fate: Fate) returns (answers: Option<seq<Answer>>)
      modifies this
      ensures sent == old(sent) + [batch]
      ensures answers == if fate.Answered? then Some(AnswersTo(old(table), batch)) else None
      ensures table == PlacedAll(old(table), InEffect(batch, fate))
    {
      sent := sent + [batch];
      match fate
      case Answered =>
        answers := Some(AnswersTo(table, batch));
        table := PlacedAll(table, batch);
      case Broken(applied) =>
        answers := None;
        table := PlacedAll(table, batch[..Least(applied, |batch|)]);
    }

    /** One turn of the loop: one batch, from `start` to `end`. */
    method SendBatch(
      records: seq<Record<B>>, start: nat, end: nat, fates: nat -> Fate, answers: seq<Answer>, ghost t: Table<B>)
      returns (answers': Option<seq<Answer>>, ghost applied: nat)
      requires start < |records| && end == Least(start + BATCH, |records|)
      requires OnItsWay(t, records, start, table, sent, answers, fates)
      modifies this
      ensures answers'.Some? ==> OnItsWay(t, records, end, table, sent, answers'.value, fates)
      ensures answers'.None? ==> BrokenOff(t, records, applied, table, sent, fates)
    {
      var fate := fates(|sent|);
      AfterTurn(t, records, start, end, table, sent, answers, fates);
      var answered := Post(records[start..end], fate);
      applied := start + if fate.Broken? then Least(fate.applied, end - start) else 0;
      answers' := if answered.Some? then Some(answers + answered.value) else None;
    }

    /**
     The batches taken together are the records, or, where a call failed, those before it and its own;
     `applied` says how many records are in effect.
     */
    method Replay(records: seq<Record<B>>, fates: nat -> Fate) returns (all: Option<seq<Answer>>, ghost applied: nat)
      requires sent == []
      modifies this
      ensures all.Some? ==>
                && applied == |records| && OnItsWay(old(table), records, applied, table, sent, all.value, fates)
                && Concat(sent) == records && all.value == AnswersTo(old(table), records)
      ensures all.None? ==> BrokenOff(old(table), records, applied, table, sent, fates)
      ensures applied <= |records| && IsBatching(sent) && table == PlacedAll(old(table), records[..applied])
    {
      ghost var before := table;
      var answers: seq<Answer> := [];
      var start := 0;
      assert records[..0] == [];
      while start < |records|
        invariant start <= |records| && OnItsWay(before, records, start, table, sent, answers, fates)
      {
        var end := Least(start + BATCH, |records|);
        var answered;
        answered, applied := SendBatch(records, start, end, fates, answers, before);
        if answered.None? {
          return None, applied;
        }
        answers, start := answered.value, end;
      }
      assert records[..|records|] == records;
      all, applied := Some(answers), |records|;
    }
  }

  /** Before the next batch: every batch so far was answered, and all are full where records are left. */
  ghost predicate OnItsWay<B>(
    t: Table<B>, rs: seq<Record<B>>, n: nat,
    table: Table<B>, sent: seq<seq<Record<B>>>, answers: seq<Answer>, fates: nat -> Fate)
    requires n <= |rs|
  {
    && ReplayedTo(t, rs, n, table, sent, answers)
    && IsBatching(sent) && (n < |rs| ==> AllFull(sent))
    && AllAnswered(fates, |sent|)
  }

  /** The last batch was not answered: the table holds the first `applied` of the records sent. */
  ghost predicate BrokenOff<B>(
    t: Table<B>, rs: seq<Record<B>>, applied: nat, table: Table<B>, sent: seq<seq<Record<B>>>, fates: nat -> Fate)
  {
    && IsBatching(sent) && sent != [] && fates(|sent| - 1).Broken? && AllAnswered(fates, |sent| - 1)
    && Concat(sent) <= rs && applied <= |Concat(sent)| && table == PlacedAll(t, rs[..applied])
  }

  lemma AfterTurn<B>(
    t: Table<B>, rs: seq<Record<B>>, start: nat, end: nat,
    table: Table<B>, sent: seq<seq<Record<B>>>, answers: seq<Answer>, fates: nat -> Fate)
    requires start < |rs| && end == Least(start + BATCH, |rs|) && OnItsWay(t, rs, start, table, sent, answers, fates)
    ensures var batch, fate := rs[start..end], fates(|sent|);
            var table' := PlacedAll(table, InEffect(batch, fate));
            if fate.Answered? then
              OnItsWay(t, rs, end, table', sent + [batch], answers + AnswersTo(table, batch), fates)
            else BrokenOff(t, rs, start + Least(fate.applied, end - start), table', sent + [batch], fates)
  {
    AfterPost(t, rs, start, end, fates(|sent|), table, sent, answers);
    OneMoreBatch(sent, rs[start..end]);
    assert rs[..end] <= rs;
  }

  predicate AllFull<B>(batches: seq<seq<Record<B>>>) { forall i | 0 <= i < |batches| :: |batches[i]| == BATCH }

  lemma OneMoreBatch<B>(batches: seq<seq<Record<B>>>, batch: seq<Record<B>>)
    requires AllFull(batches) && 0 < |batch| <= BATCH
    ensures IsBatching(batches + [batch]) && (|batch| == BATCH ==> AllFull(batches + [batch]))
  {}
}
