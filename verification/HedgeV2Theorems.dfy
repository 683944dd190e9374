/** In every interleaving of launches, writes of the attempts and the adoption of a winner, the attempts stay isolated. */
module HedgeV2Theorems {
  import opened HeaderHeap
  import opened HedgeV2Isolation

  lemma NewPartyViews(s: State)
    requires Inv(s)
    ensures Separate(NewParty(s).heap)
    ensures forall q | q in s.heap.headers :: q in NewParty(s).heap.headers && View(NewParty(s).heap, q) == View(s.heap, q)
    ensures var p := NewParty(s).parties[|s.parties|];
            forall role :: p.Header(role) in NewParty(s).heap.headers && View(NewParty(s).heap, p.Header(role)) == map[]
  {
    hide Separate, View;
    NewHeadersKeep(s.heap);
  }

  lemma NewPartyHeader(s: State, i: nat, role: Role)
    requires Inv(s) && i <= |s.parties|
    ensures var s' := NewParty(s);
            var r := s'.parties[i].Header(role);
            r in s'.heap.headers && r in s'.owners && s'.owners[r] == (i, role)
  {
    hide Separate, View;
    NewHeadersKeep(s.heap);
  }

  lemma NewPartyMessage(s: State, i: nat, which: Which)
    requires Inv(s) && i <= |s.parties|
    ensures var s' := NewParty(s);
            var m := s'.parties[i].Message(which);
            |s'.messageOwners| == |s'.messages| && m < |s'.messages| && s'.messageOwners[m] == (i, which)
  {
    hide Separate, View, NewHeaders;
  }

  lemma NewPartyInv(s: State)
    requires Inv(s)
    ensures Inv(NewParty(s))
  {
    NewPartyShape(s);
    var s' := NewParty(s);
    NewPartyMessage(s, 0, RequestMessage);
    hide Separate, View, NewParty;
    forall i, role | 0 <= i < |s'.parties|
      ensures var r := s'.parties[i].Header(role); r in s'.heap.headers && r in s'.owners && s'.owners[r] == (i, role)
    {
      NewPartyHeader(s, i, role);
    }
    forall i, which | 0 <= i < |s'.parties|
      ensures var m := s'.parties[i].Message(which); m < |s'.messages| && s'.messageOwners[m] == (i, which)
    {
      NewPartyMessage(s, i, which);
    }
  }

  lemma NewPartyMeaning(s: State)
    requires Inv(s) && Inv(NewParty(s))
    ensures Meaning(NewParty(s)).parties ==
            Meaning(s).parties + [Fresh(Meaning(s).parties[0], false)]
  {
    hide Separate, View;
    NewPartyViews(s);
    var s' := NewParty(s);
    forall i | 0 <= i < |s.parties| ensures PartyView(s', i) == PartyView(s, i) {
      assert s'.parties[i] == s.parties[i];
      assert s.parties[i].Message(RequestMessage) < |s.messages| && s.parties[i].Message(ResponseMessage) < |s.messages|;
    }
    assert PartyView(s', |s.parties|) == Fresh(PartyView(s, 0), false);
  }

  lemma CopyBetweenMeaning(s: State, to: nat, from: nat, role: Role)
    requires Inv(s) && to < |s.parties| && from < |s.parties| && to != from
    ensures var s' := CopyBetween(s, to, from, role);
            var m := Meaning(s).parties;
            && Inv(s')
            && Meaning(s') == Meaning(s).(parties :=
                 m[to := m[to].WithHeader(role, m[to].Header(role) + m[from].Header(role))])
  {
    var dst, src := s.parties[to].Header(role), s.parties[from].Header(role);
    assert s.owners[dst] != s.owners[src];
    CopyHeaderKeeps(s.heap, dst, src);
    HeaderChange(s, to, role, CopyHeader(s.heap, dst, src), View(s.heap, dst) + View(s.heap, src));
  }

  /** `launch`: fresh headers and messages, the request headers cloned from the caller's. */
  ghost function NextLaunch(s: State): State
    requires Inv(s)
  {
    NewPartyInv(s);
    var s' := NewParty(s);
    if s.withInfo then CopyBetween(s', |s.parties|, 0, RequestHeader) else s'
  }

  /** `adopt`: the winner's message, and its call info when the caller has one. */
  ghost function NextAdopt(s: State, i: nat): State
    requires Inv(s) && 1 <= i < |s.parties|
  {
    var content := s.messages[s.parties[i].Message(ResponseMessage)];
    MessageChange(s, 0, ResponseMessage, content);
    var s1 := WithMessage(s, 0, ResponseMessage, content).(adopted := true);
    if !s.withInfo then s1
    else
      MetaChange(s1, 0, s.parties[i].meta);
      var s2 := s1.(parties := s1.parties[0 := s1.parties[0].(meta := s.parties[i].meta)]);
      CopyBetweenMeaning(s2, 0, i, ResponseHeader);
      CopyBetween(CopyBetween(s2, 0, i, ResponseHeader), 0, i, Trailer)
  }

  ghost function Next(s: State, l: Label): State
    requires Inv(s)
  {
    match l
    case Launch => NextLaunch(s)
    case SetHeader(i, role, key, values) =>
      if IsAttempt(s, i) then s.(heap := SetValues(s.heap, s.parties[i].Header(role), key, values)) else s
    case WriteHeader(i, role, key, values) =>
      if IsAttempt(s, i) && key in s.heap.headers[s.parties[i].Header(role)] then
        s.(heap := WriteSlice(s.heap, s.parties[i].Header(role), key, values))
      else s
    case WriteMessage(i, which, content) =>
      if IsAttempt(s, i) then
        assert s.parties[i].Message(which) < |s.messages|;
        WithMessage(s, i, which, content)
      else s
    case SetMeta(i, meta) =>
      if IsAttempt(s, i) then s.(parties := s.parties[i := s.parties[i].(meta := meta)]) else s
    case Adopt(i) => if IsAttempt(s, i) && !s.adopted then NextAdopt(s, i) else s
  }

  lemma LaunchAlgebra(m: seq<Values3>)
    requires m != []
    ensures var m1 := m + [Fresh(m[0], false)];
            var n := |m|;
            m1[n := m1[n].WithHeader(RequestHeader, m1[n].Header(RequestHeader) + m1[0].Header(RequestHeader))]
            == m + [Fresh(m[0], true)]
  {
    assert map[] + m[0].request == m[0].request;
  }

  lemma LaunchRefines(s: State)
    requires Inv(s)
    ensures Inv(NextLaunch(s)) && Meaning(NextLaunch(s)) == IsolatedNext(Meaning(s), Launch)
  {
    NewPartyInv(s);
    NewPartyMeaning(s);
    hide Inv, Meaning, NewParty, CopyBetween, PartyView;
    if s.withInfo {
      NewPartyShape(s);
      CopyBetweenMeaning(NewParty(s), |s.parties|, 0, RequestHeader);
      LaunchAlgebra(Meaning(s).parties);
    }
  }

  lemma NewPartyShape(s: State)
    requires Inv(s)
    ensures |NewParty(s).parties| == |s.parties| + 1 >= 2
  {
  }

  lemma AdoptAlgebra(m: seq<Values3>, i: nat)
    requires 1 <= i < |m|
    ensures var m1 := m[0 := m[0].(resp := m[i].resp)];
            var m2 := m1[0 := m1[0].(meta := m[i].meta)];
            var m3 := m2[0 := m2[0].WithHeader(ResponseHeader, m2[0].Header(ResponseHeader) + m2[i].Header(ResponseHeader))];
            var m4 := m3[0 := m3[0].WithHeader(Trailer, m3[0].Header(Trailer) + m3[i].Header(Trailer))];
            m1 == m[0 := Adopted(m[0], m[i], false)] && m4 == m[0 := Adopted(m[0], m[i], true)]
  {
  }

  lemma AdoptRefines(s: State, i: nat)
    requires Inv(s) && 1 <= i < |s.parties| && !s.adopted
    ensures Inv(NextAdopt(s, i)) && Meaning(NextAdopt(s, i)) == IsolatedNext(Meaning(s), Adopt(i))
  {
    WinnerParts(s, i);
    var content := s.messages[s.parties[i].Message(ResponseMessage)];
    MessageChange(s, 0, ResponseMessage, content);
    var s0 := WithMessage(s, 0, ResponseMessage, content);
    AdoptAlgebra(Meaning(s).parties, i);
    hide Inv, Meaning, CopyBetween, PartyView;
    AdoptedFlag(s0);
    var s1 := s0.(adopted := true);
    if s.withInfo {
      MetaChange(s1, 0, s.parties[i].meta);
      var s2 := s1.(parties := s1.parties[0 := s1.parties[0].(meta := s.parties[i].meta)]);
      CopyBetweenMeaning(s2, 0, i, ResponseHeader);
      var s3 := CopyBetween(s2, 0, i, ResponseHeader);
      CopyBetweenMeaning(s3, 0, i, Trailer);
    }
  }

  lemma WinnerParts(s: State, i: nat)
    requires Inv(s) && i < |s.parties|
    ensures s.parties[i].Message(ResponseMessage) < |s.messages|
    ensures s.messages[s.parties[i].Message(ResponseMessage)] == Meaning(s).parties[i].resp
    ensures s.parties[i].meta == Meaning(s).parties[i].meta
  {
  }

  lemma AdoptedFlag(s: State)
    requires Inv(s)
    ensures Inv(s.(adopted := true)) && Meaning(s.(adopted := true)) == Meaning(s).(adopted := true)
  {
    var s' := s.(adopted := true);
    assert forall i | 0 <= i < |s.parties| :: PartyView(s', i) == PartyView(s, i);
    assert Meaning(s').parties == Meaning(s).parties;
  }

  lemma SetHeaderRefines(s: State, l: Label)
    requires Inv(s) && l.SetHeader? && IsAttempt(s, l.i)
    ensures Inv(Next(s, l)) && Meaning(Next(s, l)) == IsolatedNext(Meaning(s), l)
  {
    hide Separate, View;
    var r := s.parties[l.i].Header(l.role);
    SetValuesKeeps(s.heap, r, l.key, l.values);
    HeaderChange(s, l.i, l.role, SetValues(s.heap, r, l.key, l.values), View(s.heap, r)[l.key := l.values]);
  }

  lemma WriteHeaderRefines(s: State, l: Label)
    requires Inv(s) && l.WriteHeader? && IsAttempt(s, l.i)
    ensures Inv(Next(s, l)) && Meaning(Next(s, l)) == IsolatedNext(Meaning(s), l)
  {
    hide Separate, View;
    var r := s.parties[l.i].Header(l.role);
    if l.key in s.heap.headers[r] {
      WriteSliceKeeps(s.heap, r, l.key, l.values);
      HeaderChange(s, l.i, l.role, WriteSlice(s.heap, r, l.key, l.values), View(s.heap, r)[l.key := l.values]);
    }
  }

  lemma WriteRefines(s: State, l: Label)
    requires Inv(s) && !l.Launch? && !l.Adopt?
    ensures Inv(Next(s, l)) && Meaning(Next(s, l)) == IsolatedNext(Meaning(s), l)
  {
    if IsAttempt(s, l.i) {
      match l
      case SetHeader(_, _, _, _) => SetHeaderRefines(s, l);
      case WriteHeader(_, _, _, _) => WriteHeaderRefines(s, l);
      case WriteMessage(i, which, content) => MessageChange(s, i, which, content);
      case SetMeta(i, meta) => MetaChange(s, i, meta);
    }
  }

  /** Every step on the shared heap is the same step on values that nobody shares. */
  lemma NextRefines(s: State, l: Label)
    requires Inv(s)
    ensures Inv(Next(s, l)) && Meaning(Next(s, l)) == IsolatedNext(Meaning(s), l)
  {
    match l
    case Launch => LaunchRefines(s);
    case Adopt(i) => if IsAttempt(s, i) && !s.adopted { AdoptRefines(s, i); }
    case _ => WriteRefines(s, l);
  }

  /** `s'` is where the labels lead from `s`. */
  ghost predicate Leads(s: State, ls: seq<Label>, s': State)
    requires Inv(s)
    decreases ls
  {
    if ls == [] then s' == s
    else
      NextRefines(s, ls[0]);
      Leads(Next(s, ls[0]), ls[1..], s')
  }

  /** The own writes of attempt `i`, in order, applied to the values it started with. */
  function Replay(p: Values3, ls: seq<Label>, i: nat): Values3
    decreases ls
  {
    if ls == [] then p
    else Replay(if !ls[0].Launch? && !ls[0].Adopt? && ls[0].i == i then OwnWrite(p, ls[0]) else p, ls[1..], i)
  }

  lemma IsolatedStep(m: Isolated, l: Label, i: nat)
    requires 1 <= i < |m.parties|
    ensures var m' := IsolatedNext(m, l);
            && |m'.parties| >= |m.parties| && m'.withInfo == m.withInfo
            && m'.parties[i] == if !l.Launch? && !l.Adopt? && l.i == i then OwnWrite(m.parties[i], l) else m.parties[i]
  {
  }

  lemma IsolatedCaller(m: Isolated, l: Label)
    requires |m.parties| >= 1
    ensures var m' := IsolatedNext(m, l);
            && |m'.parties| >= |m.parties| && m'.withInfo == m.withInfo && (m.adopted ==> m'.adopted)
            && (m.adopted || !m'.adopted ==> m'.parties[0] == m.parties[0])
            && m'.parties[0].request == m.parties[0].request && m'.parties[0].req == m.parties[0].req
  {
  }

  lemma {:induction false} AttemptReplays(s: State, ls: seq<Label>, s': State, i: nat)
    requires Inv(s) && Leads(s, ls, s') && IsAttempt(s, i)
    ensures Inv(s') && |s'.parties| >= |s.parties| && s'.withInfo == s.withInfo
    ensures Meaning(s').parties[i] == Replay(Meaning(s).parties[i], ls, i)
    decreases ls
  {
    if ls != [] {
      NextRefines(s, ls[0]);
      IsolatedStep(Meaning(s), ls[0], i);
      hide Inv, Meaning, Next, PartyView, IsolatedNext, OwnWrite;
      AttemptReplays(Next(s, ls[0]), ls[1..], s', i);
    }
  }

  lemma {:induction false} CallerKeeps(s: State, ls: seq<Label>, s': State)
    requires Inv(s) && Leads(s, ls, s')
    ensures Inv(s') && |s'.parties| >= |s.parties| >= 1 && s'.withInfo == s.withInfo
    ensures s.adopted ==> s'.adopted
    ensures s.adopted || !s'.adopted ==> Meaning(s').parties[0] == Meaning(s).parties[0]
    ensures Meaning(s').parties[0].request == Meaning(s).parties[0].request
    ensures Meaning(s').parties[0].req == Meaning(s).parties[0].req
    decreases ls
  {
    if ls != [] {
      NextRefines(s, ls[0]);
      IsolatedCaller(Meaning(s), ls[0]);
      hide Inv, Meaning, Next, PartyView, IsolatedNext, OwnWrite;
      CallerKeeps(Next(s, ls[0]), ls[1..], s');
    }
  }

  /**
   Isolation. An attempt launched at any moment of any interleaving reads, at any later moment, as the caller's request
   headers and message of the start with its own writes applied, whatever other attempts write and whoever wins.
   */
  lemma AttemptsAreIsolated(s: State, before: seq<Label>, s1: State, after: seq<Label>, s2: State)
    requires Inv(s) && Leads(s, before, s1) && Inv(s1)
    requires Inv(Next(s1, Launch)) && Leads(Next(s1, Launch), after, s2)
    ensures Inv(s2) && IsAttempt(s2, |s1.parties|)
    ensures var caller := Meaning(s).parties[0];
            var headers := if s.withInfo then caller.request else map[];
            Meaning(s2).parties[|s1.parties|] ==
            Replay(Values3(headers, map[], map[], caller.req, EMPTY_MESSAGE, 0), after, |s1.parties|)
  {
    hide Leads, Replay, PartyView, Next;
    CallerKeeps(s, before, s1);
    NextRefines(s1, Launch);
    AttemptReplays(Next(s1, Launch), after, s2, |s1.parties|);
  }

  /** Until a winner is adopted, the caller's message and call info are untouched. */
  lemma CallerUntouched(s: State, ls: seq<Label>, s': State)
    requires Inv(s) && Leads(s, ls, s')
    ensures Inv(s') && (!s'.adopted ==> Meaning(s').parties[0] == Meaning(s).parties[0])
  {
    CallerKeeps(s, ls, s');
  }

  /**
   Adoption gives the caller the winner's message and call info as they are at that moment, its headers and trailers
   added to the caller's, and no later write of any attempt, the winner included, changes them.
   */
  lemma WinnerIsKept(s: State, before: seq<Label>, s1: State, winner: nat, after: seq<Label>, s2: State)
    requires Inv(s) && Leads(s, before, s1) && Inv(s1) && !s1.adopted && IsAttempt(s1, winner)
    requires Inv(Next(s1, Adopt(winner))) && Leads(Next(s1, Adopt(winner)), after, s2)
    ensures Inv(s2)
    ensures var caller, won := Meaning(s).parties[0], Meaning(s1).parties[winner];
            Meaning(s2).parties[0] ==
            if s.withInfo then
              Values3(caller.request, caller.response + won.response, caller.trailer + won.trailer,
                      caller.req, won.resp, won.meta)
            else Values3(caller.request, caller.response, caller.trailer, caller.req, won.resp, caller.meta)
  {
    hide Leads, PartyView, Next;
    CallerKeeps(s, before, s1);
    NextRefines(s1, Adopt(winner));
    CallerKeeps(Next(s1, Adopt(winner)), after, s2);
  }
}
