/**
 The objects the showcase makes: what is sent of a body is the members that have something in them, as
 they were and in their order; by which of its identifiers an object goes, where it is read, and at
 which version it stands.
 */
module MadeObjects {
  import opened Wrappers
  import opened Json
  import opened Voices
  import opened Showcase

  datatype Member = Member(key: string, value: Body)

  function MembersOf(fs: Fields<string>): seq<Member> {
    if fs.End? then [] else [Member(fs.key, fs.value)] + MembersOf(fs.rest)
  }

  predicate Filled(m: Member) { m.value != Null && m.value != Text("") }

  /** `picked` is what stands at the places `at` of `all`, in order. */
  predicate PickedAt(picked: seq<Member>, all: seq<Member>, at: seq<nat>) {
    && |picked| == |at|
    && (forall i, j | 0 <= i < j < |at| :: at[i] < at[j])
    && forall k | 0 <= k < |at| :: at[k] < |all| && picked[k] == all[at[k]]
  }

  /** Every filled member of `all` is at one of the places, and nothing else. */
  predicate PicksTheFilled(all: seq<Member>, at: seq<nat>) {
    && (forall k | 0 <= k < |at| :: at[k] < |all| && Filled(all[at[k]]))
    && forall i: nat | i < |all| && Filled(all[i]) :: i in at
  }

  /** `picked` is the filled members of `all`, each once, unchanged and in order. */
  ghost predicate OnlyTheFilled(picked: seq<Member>, all: seq<Member>) {
    exists at :: PickedAt(picked, all, at) && PicksTheFilled(all, at)
  }

  function Shifted(at: seq<nat>): (out: seq<nat>)
    ensures |out| == |at| && forall k | 0 <= k < |at| :: out[k] == at[k] + 1
  {
    seq(|at|, k requires 0 <= k < |at| => at[k] + 1)
  }

  lemma OneEmptyInFront(m: Member, picked: seq<Member>, all: seq<Member>, at: seq<nat>)
    requires PickedAt(picked, all, at) && PicksTheFilled(all, at) && !Filled(m)
    ensures PickedAt(picked, [m] + all, Shifted(at)) && PicksTheFilled([m] + all, Shifted(at))
  {
    forall i: nat | i < |[m] + all| && Filled(([m] + all)[i]) ensures i in Shifted(at) {
      assert all[i - 1] == ([m] + all)[i] && i - 1 in at;
      var k :| 0 <= k < |at| && at[k] == i - 1;
      assert Shifted(at)[k] == i;
    }
  }

  lemma PickedInFront(m: Member, picked: seq<Member>, all: seq<Member>, at: seq<nat>)
    requires PickedAt(picked, all, at)
    ensures PickedAt([m] + picked, [m] + all, [0] + Shifted(at))
  {
    var at' := [0] + Shifted(at);
    forall k | 0 <= k < |at'| ensures at'[k] < |[m] + all| && ([m] + picked)[k] == ([m] + all)[at'[k]] {
      if k > 0 { assert at'[k] == at[k - 1] + 1; }
    }
    forall i, j | 0 <= i < j < |at'| ensures at'[i] < at'[j] {
      assert at'[j] == at[j - 1] + 1 && (i > 0 ==> at'[i] == at[i - 1] + 1);
    }
  }

  lemma OneFilledInFront(m: Member, picked: seq<Member>, all: seq<Member>, at: seq<nat>)
    requires PickedAt(picked, all, at) && PicksTheFilled(all, at) && Filled(m)
    ensures PickedAt([m] + picked, [m] + all, [0] + Shifted(at)) && PicksTheFilled([m] + all, [0] + Shifted(at))
  {
    PickedInFront(m, picked, all, at);
    forall k | 0 <= k < |[0] + Shifted(at)| ensures Filled(([m] + all)[([0] + Shifted(at))[k]]) {
      if k > 0 { assert ([0] + Shifted(at))[k] == at[k - 1] + 1; }
    }
    forall i: nat | i < |[m] + all| && Filled(([m] + all)[i]) ensures i in [0] + Shifted(at) {
      if i > 0 {
        assert all[i - 1] == ([m] + all)[i] && i - 1 in at;
        var k :| 0 <= k < |at| && at[k] == i - 1;
        assert ([0] + Shifted(at))[k + 1] == i;
      }
    }
  }

  /** Leaving out the empty members leaves exactly the filled ones. */
  lemma {:induction false} CompactPicksTheFilled(fs: Fields<string>) returns (at: seq<nat>)
    ensures PickedAt(MembersOf(CompactFields(fs)), MembersOf(fs), at) && PicksTheFilled(MembersOf(fs), at)
    ensures forall m | m in MembersOf(CompactFields(fs)) :: Filled(m)
  {
    if fs.End? {
      at := [];
    } else {
      var m := Member(fs.key, fs.value);
      var rest := CompactPicksTheFilled(fs.rest);
      var picked, all := MembersOf(CompactFields(fs.rest)), MembersOf(fs.rest);
      if Filled(m) {
        at := [0] + Shifted(rest);
        OneFilledInFront(m, picked, all, rest);
      } else {
        at := Shifted(rest);
        OneEmptyInFront(m, picked, all, rest);
      }
    }
  }

  /** The body sent is an object of exactly the filled members of the one given. */
  ghost predicate SentFilled(sent: Option<Body>, given: Fields<string>) {
    sent.Some? && sent.value.Object? && OnlyTheFilled(MembersOf(sent.value.fields), MembersOf(given))
  }

  lemma CompactIsFilled(given: Fields<string>)
    ensures SentFilled(Some(Compact(Json.Object(given))), given)
  {
    var at := CompactPicksTheFilled(given);
  }

  /**
   An object that is not held yet is asked for once, now or by its voice, as a POST to its path with the
   filled members of its body; one that is held is not asked for at all.
   */
  lemma AskedForWithTheFilled(
    r: Run, speaker: string, key: string, kind: string, path: string, given: Fields<string>, c: Created, m: Marking)
    ensures var r' := SpokenObject(r, speaker, key, kind, path, Json.Object(given), c, m).0;
            if key in r.held then r' == r
            else if Left(r, speaker, path, Some(Json.Object(given))) then
              && r'.site.sent == r.site.sent && |r'.spoken| == |r.spoken| + 1 && r.spoken <= r'.spoken
              && var v := r'.spoken[|r.spoken|];
                 v.speaker == speaker && v.verb == "POST" && v.path == path && SentFilled(v.body, given)
            else
              && r'.spoken == r.spoken && |r'.site.sent| == |r.site.sent| + 1 && r.site.sent <= r'.site.sent
              && var q := r'.site.sent[|r.site.sent|];
                 q.sender == "" && q.verb == "POST" && q.path == path && SentFilled(q.body, given)
  {
    CompactIsFilled(given);
    if key !in r.held && !Left(r, speaker, path, Some(Json.Object(given))) {
      TakenSendsNothing(r.(site := CreatedAt(r.site, key, path, Json.Object(given), c)), key, kind, c, m);
    }
  }

  lemma TakenSendsNothing(r: Run, key: string, kind: string, c: Created, m: Marking)
    ensures var r' := Taken(r, key, kind, c, m).0; r'.spoken == r.spoken && r'.site.sent == r.site.sent
  {}

  /**
   The object made goes by the `id` it is answered, or by the `item_id` where it has none: that is what
   the content is given, what is held, and what is marked.
   */
  lemma GoesByItsId(asked: Run, key: string, kind: string, id: string, itemId: string, version: Option<int>)
    ensures var (r', given, isNew) := Taken(asked, key, kind, Answered(id, itemId, version), Kept);
            var name := if id == "" then itemId else id;
            if name == "" then given == "" && !isNew && r'.held == asked.held
            else
              && given == name && isNew && r'.held == asked.held[key := name]
              && if Versioned(kind) then r'.pending == asked.pending + [Pending(Mark(key, kind), name)]
                 else key in r'.site.marks && r'.site.marks[key] == Stored(name, version)
  {}

  /** Where a goal, a portfolio and a dashboard are read, by hubctl at the end of a run or left to a MARK voice. */
  lemma ReadWhereItStands(r: Run, key: string, kind: string, id: string, f: Flushing)
    requires kind in {"GOAL", "PORTFOLIO", "DASHBOARD"}
    ensures ReadPath("GOAL", id) == "/goals/" + id && ReadPath("PORTFOLIO", id) == "/portfolios/" + id
    ensures ReadPath("DASHBOARD", id) == "/dashboards/" + id
    ensures r.voices ==>
              var spoken := FlushedOne(r, Pending(Mark(key, kind), id), f).spoken;
              && |spoken| == |r.spoken| + 1 && r.spoken <= spoken
              && var v := spoken[|r.spoken|];
                 v.speaker == "" && v.verb == "MARK" && v.path == ReadPath(kind, id) && v.mark == Some(Mark(key, kind))
  {}

  // ---------------------------------------------------------------- versions

  /** What the server says of versions in answer to an act: an object's own at its creation, or those moved. */
  function ToldBy(r: Run, a: Act): map<string, int> {
    if a.MakeObject? then
      var asked := a.key !in r.held && !Left(r, a.speaker, a.path, Some(a.content));
      if !asked || !a.created.Answered? || a.created.version.None? then map[]
      else map[(if a.created.id == "" then a.created.itemId else a.created.id) := a.created.version.value]
    else if LeavesToVoices(r.voices, a) || !a.reply.accepted then map[] else a.reply.moved
  }

  /** After an act each object stands at the version told of it last. */
  lemma StandsAsTold(r: Run, a: Act, id: string)
    ensures VersionAt(Acted(r, a).site, id)
         == if id in ToldBy(r, a) then Some(ToldBy(r, a)[id]) else VersionAt(r.site, id)
  {
    if a.MakeObject? && a.key !in r.held && !Left(r, a.speaker, a.path, Some(a.content)) {
      TakenMovesNothing(r.(site := CreatedAt(r.site, a.key, a.path, a.content, a.created)), a.key, a.kind, a.created,
                        a.marking);
    }
  }

  lemma TakenMovesNothing(r: Run, key: string, kind: string, c: Created, m: Marking)
    ensures Taken(r, key, kind, c, m).0.site.versions == r.site.versions
  {}
}
