/**
 Isolation of the attempts of one hedged call. `State` has header and message objects on a heap, shared by whoever holds
 a reference; `Isolated` gives each party values of its own. In every interleaving the first reads as the second.
 */
module HedgeV2Isolation {
  import opened HeaderHeap

  datatype Role = RequestHeader | ResponseHeader | Trailer

  datatype Which = RequestMessage | ResponseMessage

  /** References to three headers and two messages; `meta` stands for the remaining fields of the call info. */
  datatype Party = Party(request: Ref, response: Ref, trailer: Ref, req: nat, resp: nat, meta: int) {
    function Header(role: Role): Ref {
      match role
      case RequestHeader => request
      case ResponseHeader => response
      case Trailer => trailer
    }

    function Message(which: Which): nat {
      if which == RequestMessage then req else resp
    }
  }

  const EMPTY_MESSAGE := 0

  /**
   Party 0 is the caller, the others are attempts. `owners` and `messageOwners` record for whom an object was made.
   `withInfo` says that the caller's context carries a call info.
   */
  datatype State = State(
    heap: Heap,
    messages: seq<int>,
    parties: seq<Party>,
    withInfo: bool,
    adopted: bool,
    owners: map<Ref, (nat, Role)>,
    messageOwners: seq<(nat, Which)>)

  datatype Label =
    | Launch
    | SetHeader(i: nat, role: Role, key: Name, values: Values)
    | WriteHeader(i: nat, role: Role, key: Name, values: Values)
    | WriteMessage(i: nat, which: Which, content: int)
    | SetMeta(i: nat, meta: int)
    | Adopt(i: nat)

  ghost predicate Inv(s: State) {
    && Separate(s.heap) && |s.parties| >= 1 && |s.messageOwners| == |s.messages|
    && (forall i, role {:trigger s.parties[i].Header(role)} | 0 <= i < |s.parties| ::
          var r := s.parties[i].Header(role);
          r in s.heap.headers && r in s.owners && s.owners[r] == (i, role))
    && (forall i, which {:trigger s.parties[i].Message(which)} | 0 <= i < |s.parties| ::
          var m := s.parties[i].Message(which);
          m < |s.messages| && s.messageOwners[m] == (i, which))
  }

  predicate IsAttempt(s: State, i: nat) {
    1 <= i < |s.parties|
  }

  ghost function NewParty(s: State): State
    requires Inv(s)
  {
    var (heap, request, response, trailer) := NewHeaders(s.heap);
    var i, m := |s.parties|, |s.messages|;
    s.(heap := heap,
       messages := s.messages + [s.messages[s.parties[0].Message(RequestMessage)], EMPTY_MESSAGE],
       parties := s.parties + [Party(request, response, trailer, m, m + 1, 0)],
       owners := s.owners[request := (i, RequestHeader)][response := (i, ResponseHeader)][trailer := (i, Trailer)],
       messageOwners := s.messageOwners + [(i, RequestMessage), (i, ResponseMessage)])
  }

  ghost function CopyBetween(s: State, to: nat, from: nat, role: Role): State
    requires Inv(s) && to < |s.parties| && from < |s.parties| && to != from
  {
    var dst, src := s.parties[to].Header(role), s.parties[from].Header(role);
    assert s.owners[dst] != s.owners[src];
    s.(heap := CopyHeader(s.heap, dst, src))
  }

  function WithMessage(s: State, i: nat, which: Which, content: int): State
    requires i < |s.parties| && s.parties[i].Message(which) < |s.messages|
  {
    s.(messages := s.messages[s.parties[i].Message(which) := content])
  }

  // ---------------------------------------------------------------- the isolated meaning

  datatype Values3 = Values3(request: Fields, response: Fields, trailer: Fields, req: int, resp: int, meta: int) {
    function WithHeader(role: Role, fields: Fields): Values3 {
      match role
      case RequestHeader => this.(request := fields)
      case ResponseHeader => this.(response := fields)
      case Trailer => this.(trailer := fields)
    }

    function Header(role: Role): Fields {
      match role
      case RequestHeader => request
      case ResponseHeader => response
      case Trailer => trailer
    }
  }

  datatype Isolated = Isolated(parties: seq<Values3>, withInfo: bool, adopted: bool)

  ghost function PartyView(s: State, i: nat): Values3
    requires Inv(s) && i < |s.parties|
  {
    var p := s.parties[i];
    Values3(View(s.heap, p.Header(RequestHeader)), View(s.heap, p.Header(ResponseHeader)), View(s.heap, p.Header(Trailer)),
            s.messages[p.Message(RequestMessage)], s.messages[p.Message(ResponseMessage)], p.meta)
  }

  ghost function Meaning(s: State): (m: Isolated)
    requires Inv(s)
    ensures |m.parties| == |s.parties| && m.withInfo == s.withInfo && m.adopted == s.adopted
    ensures forall i | 0 <= i < |m.parties| :: m.parties[i] == PartyView(s, i)
  {
    Isolated(seq(|s.parties|, i requires 0 <= i < |s.parties| => PartyView(s, i)), s.withInfo, s.adopted)
  }

  /** A write of an attempt to one of its own objects. */
  function OwnWrite(p: Values3, l: Label): Values3 {
    match l
    case SetHeader(_, role, key, values) => p.WithHeader(role, p.Header(role)[key := values])
    case WriteHeader(_, role, key, values) =>
      if key in p.Header(role) then p.WithHeader(role, p.Header(role)[key := values]) else p
    case WriteMessage(_, which, content) => if which == RequestMessage then p.(req := content) else p.(resp := content)
    case SetMeta(_, meta) => p.(meta := meta)
    case _ => p
  }

  function Fresh(caller: Values3, withInfo: bool): Values3 {
    Values3(if withInfo then caller.request else map[], map[], map[], caller.req, EMPTY_MESSAGE, 0)
  }

  function Adopted(caller: Values3, winner: Values3, withInfo: bool): Values3 {
    if withInfo then
      Values3(caller.request, caller.response + winner.response, caller.trailer + winner.trailer,
              caller.req, winner.resp, winner.meta)
    else caller.(resp := winner.resp)
  }

  function IsolatedNext(m: Isolated, l: Label): Isolated
    requires |m.parties| >= 1
  {
    match l
    case Launch => m.(parties := m.parties + [Fresh(m.parties[0], m.withInfo)])
    case Adopt(i) =>
      if 1 <= i < |m.parties| && !m.adopted then
        m.(parties := m.parties[0 := Adopted(m.parties[0], m.parties[i], m.withInfo)], adopted := true)
      else m
    case _ => if 1 <= l.i < |m.parties| then m.(parties := m.parties[l.i := OwnWrite(m.parties[l.i], l)]) else m
  }

  // ---------------------------------------------------------------- each change of the heap, seen in isolation

  /** One header of one party changes. */
  lemma HeaderChange(s: State, i: nat, role: Role, h': Heap, fields: Fields)
    requires Inv(s) && i < |s.parties| && OnlyChanges(s.heap, h', s.parties[i].Header(role), fields)
    ensures var s' := s.(heap := h');
            && Inv(s')
            && Meaning(s') == Meaning(s).(parties := Meaning(s).parties[i := Meaning(s).parties[i].WithHeader(role, fields)])
  {
    hide Separate, View;
    var s' := s.(heap := h');
    assert Inv(s');
    var changed := s.parties[i].Header(role);
    forall j, other | 0 <= j < |s.parties| && (j != i || other != role)
      ensures View(h', s.parties[j].Header(other)) == View(s.heap, s.parties[j].Header(other))
    {
      assert s.owners[s.parties[j].Header(other)] == (j, other);
    }
    forall j | 0 <= j < |s.parties|
      ensures PartyView(s', j) == if j == i then PartyView(s, i).WithHeader(role, fields) else PartyView(s, j)
    {
    }
    assert Meaning(s').parties == Meaning(s).parties[i := Meaning(s).parties[i].WithHeader(role, fields)];
  }

  lemma MessageChange(s: State, i: nat, which: Which, content: int)
    requires Inv(s) && i < |s.parties|
    ensures var s' := WithMessage(s, i, which, content);
            && Inv(s')
            && Meaning(s') == Meaning(s).(parties :=
                 Meaning(s).parties[i := OwnWrite(Meaning(s).parties[i], WriteMessage(i, which, content))])
  {
    var s' := WithMessage(s, i, which, content);
    assert Inv(s');
    forall j, other | 0 <= j < |s.parties| && (j != i || other != which)
      ensures s'.messages[s.parties[j].Message(other)] == s.messages[s.parties[j].Message(other)]
    {
      assert s.messageOwners[s.parties[j].Message(other)] == (j, other);
    }
    assert Meaning(s').parties ==
           Meaning(s).parties[i := OwnWrite(Meaning(s).parties[i], WriteMessage(i, which, content))];
  }

  lemma MetaChange(s: State, i: nat, meta: int)
    requires Inv(s) && i < |s.parties|
    ensures var s' := s.(parties := s.parties[i := s.parties[i].(meta := meta)]);
            && Inv(s')
            && Meaning(s') == Meaning(s).(parties := Meaning(s).parties[i := Meaning(s).parties[i].(meta := meta)])
  {
    var s' := s.(parties := s.parties[i := s.parties[i].(meta := meta)]);
    forall j, role | 0 <= j < |s.parties| ensures s'.parties[j].Header(role) == s.parties[j].Header(role) {
    }
    forall j, which | 0 <= j < |s.parties| ensures s'.parties[j].Message(which) == s.parties[j].Message(which) {
    }
    assert Inv(s');
    assert Meaning(s').parties == Meaning(s).parties[i := Meaning(s).parties[i].(meta := meta)];
  }
}
