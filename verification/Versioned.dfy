/**
 Read a document whole, change it, send it back whole with the version read: many clients of one
 document, in any interleaving.
 */
module Versioned {
  import opened Wrappers

  datatype Snapshot<S> = Snapshot(store: S, version: int)

  /** The document, its version, what each client has read and not yet sent, and who saved, in order. */
  datatype System<S> = System(store: S, version: int, held: map<nat, Snapshot<S>>, log: seq<nat>)

  /** What each client sends of what it read, if anything, and the version it quotes, if any. */
  datatype Protocol<!S> = Protocol(change: (nat, S) -> Option<S>, quote: int -> Option<int>)

  /** A client reads, or sends; `admitted` is that nothing but the version could refuse it. */
  datatype Step = Read(client: nat) | Put(client: nat, admitted: bool)

  /** A save quoting no version is compared with none. */
  predicate Refused(quoted: Option<int>, version: int) { quoted.Some? && quoted.value != version }

  function Stepped<S>(p: Protocol<S>, s: System<S>, step: Step): System<S> {
    match step
    case Read(c) => s.(held := s.held[c := Snapshot(s.store, s.version)])
    case Put(c, admitted) =>
      if c !in s.held then s
      else
        var changed := p.change(c, s.held[c].store);
        var done := s.(held := s.held - {c});
        if changed.None? || !admitted || Refused(p.quote(s.held[c].version), s.version) then done
        else System(changed.value, s.version + 1, done.held, s.log + [c])
  }

  function Ran<S>(p: Protocol<S>, s: System<S>, steps: seq<Step>): System<S> {
    if steps == [] then s else Stepped(p, Ran(p, s, steps[..|steps| - 1]), steps[|steps| - 1])
  }

  function Fresh<S>(store: S, version: int): System<S> { System(store, version, map[], []) }

  /** The changes of the log, one after the other, with nothing in between. */
  function Folded<S>(p: Protocol<S>, store: S, log: seq<nat>): S {
    if log == [] then store
    else
      var before := Folded(p, store, log[..|log| - 1]);
      var changed := p.change(log[|log| - 1], before);
      if changed.Some? then changed.value else before
  }

  /** What is read at the current version is what is there. */
  ghost predicate Current<S>(s: System<S>, c: nat)
    requires c in s.held
  {
    s.held[c].version <= s.version && (s.held[c].version == s.version ==> s.held[c].store == s.store)
  }

  ghost predicate Kept<S>(p: Protocol<S>, store: S, version: int, s: System<S>) {
    && s.store == Folded(p, store, s.log)
    && version <= s.version
    && forall c | c in s.held :: Current(s, c) && version <= s.held[c].version
  }

  ghost predicate QuotesFrom<S>(p: Protocol<S>, version: int) { forall v | v >= version :: p.quote(v) == Some(v) }

  lemma StepKeeps<S>(p: Protocol<S>, store: S, version: int, s: System<S>, step: Step)
    requires QuotesFrom(p, version) && Kept(p, store, version, s)
    ensures Kept(p, store, version, Stepped(p, s, step))
  {
    var after := Stepped(p, s, step);
    if step.Put? && |after.log| > |s.log| {
      assert Current(s, step.client);
      assert after.log[..|after.log| - 1] == s.log;
      forall c | c in after.held ensures Current(after, c) { assert Current(s, c); }
    } else {
      forall c | c in after.held ensures Current(after, c) && version <= after.held[c].version {
        if c in s.held && after.held[c] == s.held[c] { assert Current(s, c); }
      }
    }
  }

  /**
   In every interleaving of clients that quote the version they read, the document is the first one
   with exactly the accepted changes applied, in the order they were accepted.
   */
  lemma {:induction false} EveryInterleavingIsSerial<S>(p: Protocol<S>, store: S, version: int, steps: seq<Step>)
    requires QuotesFrom(p, version)
    ensures Kept(p, store, version, Ran(p, Fresh(store, version), steps))
  {
    if steps != [] {
      EveryInterleavingIsSerial(p, store, version, steps[..|steps| - 1]);
      StepKeeps(p, store, version, Ran(p, Fresh(store, version), steps[..|steps| - 1]), steps[|steps| - 1]);
    }
  }
}
