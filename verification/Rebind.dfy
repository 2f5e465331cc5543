/**
 Moving the Agent's HTTP listener, as a protocol of atomic sections. Any number of calls run at
 once; each goes from section to section, and any other call may run in between. So may the one
 management request or reload that holds the management lock: it takes the configuration,
 listen address included, in one section and publishes it in a later one.
 */
module Rebind {
  import opened Types

  /** An HTTP server with its open listener. */
  datatype HttpServer = HttpServer(id: nat, addr: string)

  /** Where a call stands between two sections. */
  datatype Phase =
    | Entered
    | SameAddress(seen: HttpServer)
    | Checked
    | Listening(made: HttpServer)
    | Closing(made: HttpServer)
    | Swapped(former: HttpServer)
    | Retiring(former: HttpServer)
    | Returned(ok: bool)

  datatype Call = Call(addr: string, phase: Phase)

  /** A configuration that is yet to be published; a reload that moves the listener waits for that
      call to succeed. */
  datatype Draft = Draft(listen: string, via: Option<nat>)

  datatype State = State(
    current: Option<HttpServer>,
    listen: string,
    open: set<nat>,
    next: nat,
    calls: map<nat, Call>,
    draft: Option<Draft>,
    swaps: nat,
    touches: nat)

  /** `c` is the call that takes the section. The last four are those of the management lock: a
      request copies the configuration, a reload has read it from the file and finds out whether
      there is a server to move, and either publishes it or gives up. */
  datatype Section =
    | Enter(c: nat, addr: string)
    | Peek(c: nat)
    | Confirm(c: nat)
    | OpenListener(c: nat, ok: bool)
    | Commit(c: nat)
    | CloseUnused(c: nat)
    | Touch(c: nat)
    | ShutDown(c: nat)
    | Copy
    | Load(c: nat, addr: string)
    | Publish
    | Abandon

  function Moved(s: State, c: nat, phase: Phase): State
    requires c in s.calls
  {
    s.(calls := s.calls[c := Call(s.calls[c].addr, phase)])
  }

  function PeekSection(s: State, c: nat): State
    requires c in s.calls
  {
    if s.current.None? then Moved(s, c, Returned(true))
    else if s.current.value.addr == s.calls[c].addr then Moved(s, c, SameAddress(s.current.value))
    else Moved(s, c, Checked)
  }

  function ConfirmSection(s: State, c: nat): State
    requires c in s.calls && s.calls[c].phase.SameAddress?
  {
    var t := Moved(s, c, Returned(true));
    if s.current == Some(s.calls[c].phase.seen) then t.(listen := s.calls[c].addr) else t
  }

  function OpenSection(s: State, c: nat, ok: bool): State
    requires c in s.calls
  {
    if !ok then Moved(s, c, Returned(false))
    else Moved(s, c, Listening(HttpServer(s.next, s.calls[c].addr))).(open := s.open + {s.next}, next := s.next + 1)
  }

  function CommitSection(s: State, c: nat): State
    requires c in s.calls && s.calls[c].phase.Listening?
  {
    var addr, made := s.calls[c].addr, s.calls[c].phase.made;
    if s.current.None? || s.current.value.addr == addr
    then Moved(s, c, Closing(made)).(listen := addr)
    else Moved(s, c, Swapped(s.current.value)).(current := Some(made), listen := addr, swaps := s.swaps + 1)
  }

  function LoadSection(s: State, c: nat, addr: string): State {
    if s.current.None? then s.(draft := Some(Draft(addr, None)))
    else s.(draft := Some(Draft(addr, Some(c))), calls := s.calls[c := Call(addr, Entered)])
  }

  /** There is a draft, and a call that it waits for has returned `ok`. */
  predicate DraftDue(s: State, ok: bool) {
    s.draft.Some? && (s.draft.value.via.Some? ==> At(s, s.draft.value.via.value, Returned(ok)))
  }

  /** Takes a section; one whose call is not there to take it changes nothing. */
  function Take(s: State, a: Section): State {
    match a
    case Enter(c, addr) => if c in s.calls then s else s.(calls := s.calls[c := Call(addr, Entered)])
    case Peek(c) => if At(s, c, Entered) then PeekSection(s, c) else s
    case Confirm(c) => if c in s.calls && s.calls[c].phase.SameAddress? then ConfirmSection(s, c) else s
    case OpenListener(c, ok) => if At(s, c, Checked) then OpenSection(s, c, ok) else s
    case Commit(c) => if c in s.calls && s.calls[c].phase.Listening? then CommitSection(s, c) else s
    case CloseUnused(c) =>
      if c in s.calls && s.calls[c].phase.Closing?
      then Moved(s, c, Returned(true)).(open := s.open - {s.calls[c].phase.made.id}) else s
    case Touch(c) =>
      if c in s.calls && s.calls[c].phase.Swapped?
      then Moved(s, c, Retiring(s.calls[c].phase.former)).(touches := s.touches + 1) else s
    case ShutDown(c) =>
      if c in s.calls && s.calls[c].phase.Retiring?
      then Moved(s, c, Returned(true)).(open := s.open - {s.calls[c].phase.former.id}) else s
    case Copy => if s.draft.None? then s.(draft := Some(Draft(s.listen, None))) else s
    case Load(c, addr) => if s.draft.None? && c !in s.calls then LoadSection(s, c, addr) else s
    case Publish => if DraftDue(s, true) then s.(listen := s.draft.value.listen, draft := None) else s
    case Abandon => if DraftDue(s, false) then s.(draft := None) else s
  }

  predicate At(s: State, c: nat, phase: Phase) {
    c in s.calls && s.calls[c].phase == phase
  }

  function Run(s: State, sections: seq<Section>): State
    decreases |sections|
  {
    if sections == [] then s else Run(Take(s, sections[0]), sections[1..])
  }

  // The invariant

  /** The listener that a call alone must still close. */
  function Holds(p: Phase): Option<nat> {
    match p
    case Listening(made) => Some(made.id)
    case Closing(made) => Some(made.id)
    case Swapped(former) => Some(former.id)
    case Retiring(former) => Some(former.id)
    case _ => None
  }

  ghost predicate HeldBySome(s: State, id: nat) {
    exists c :: c in s.calls && Holds(s.calls[c].phase) == Some(id)
  }

  ghost predicate Current(s: State, id: nat) {
    s.current.Some? && s.current.value.id == id
  }

  /** What a call remembers fits its address, and what it holds is open and its own. */
  ghost predicate CallOk(s: State, c: nat)
    requires c in s.calls
  {
    var p := s.calls[c].phase;
    && (p.SameAddress? ==> p.seen.addr == s.calls[c].addr)
    && (p.Listening? ==> p.made.addr == s.calls[c].addr)
    && (Holds(p).Some? ==> Holds(p).value in s.open && !Current(s, Holds(p).value))
  }

  /** Every open listener is the current server's, or some call is bound to close it; no
      listener has two owners. */
  ghost predicate Accounted(s: State) {
    && (s.current.Some? ==> s.current.value.id in s.open)
    && (forall id :: id in s.open ==> id < s.next && (Current(s, id) || HeldBySome(s, id)))
    && (forall c :: c in s.calls ==> CallOk(s, c))
    && (forall c, d :: c in s.calls && d in s.calls && c != d && Holds(s.calls[c].phase).Some? ==>
          Holds(s.calls[c].phase) != Holds(s.calls[d].phase))
  }

  /** The address that is announced is the one that is listened on. */
  predicate Agrees(s: State) {
    s.current.Some? ==> s.current.value.addr == s.listen
  }

  /** Calls that have swapped the server and still owe the registry its touch. */
  function Untouched(s: State): set<nat> {
    set c | c in s.calls && s.calls[c].phase.Swapped?
  }

  ghost predicate Inv(s: State) {
    Accounted(s) && s.swaps == s.touches + |Untouched(s)|
  }

  /** The section does not publish an address that differs from the present one. */
  predicate KeepsListen(s: State, a: Section) {
    a.Publish? && DraftDue(s, true) && s.current.Some? ==> s.draft.value.listen == s.listen
  }

  /** A section keeps the agreement exactly if it does not publish another listen address. */
  lemma AgreementKeptIff(s: State, a: Section)
    requires Accounted(s) && Agrees(s)
    ensures Agrees(Take(s, a)) <==> KeepsListen(s, a)
  {
    match a
    case Confirm(c) => assert c in s.calls ==> CallOk(s, c);
    case Commit(c) => assert c in s.calls ==> CallOk(s, c);
    case _ =>
  }

  /** A call that swaps, or finds its address already listened on, restores the agreement. */
  lemma AgreementRestored(s: State, c: nat)
    requires Accounted(s) && c in s.calls
    ensures s.calls[c].phase.Listening? ==> Agrees(Take(s, Commit(c)))
    ensures s.calls[c].phase.SameAddress? && s.current == Some(s.calls[c].phase.seen) ==> Agrees(Take(s, Confirm(c)))
  {
    assert CallOk(s, c);
  }

  /** A call that goes on without taking or giving up a listener. */
  lemma MoveAccounted(s: State, c: nat, p: Phase)
    requires Accounted(s) && c in s.calls && Holds(p) == Holds(s.calls[c].phase)
    requires p.SameAddress? ==> p.seen.addr == s.calls[c].addr
    requires !p.Listening?
    ensures Accounted(Moved(s, c, p))
  {
    var t := Moved(s, c, p);
    forall id: nat | HeldBySome(s, id)
      ensures HeldBySome(t, id)
    {
      var d :| d in s.calls && Holds(s.calls[d].phase) == Some(id);
      assert d in t.calls && Holds(t.calls[d].phase) == Some(id);
    }
    forall d | d in t.calls
      ensures CallOk(t, d)
    {
      assert CallOk(s, d) && CallOk(s, c);
    }
  }

  lemma OpenAccounted(s: State, c: nat)
    requires Accounted(s) && At(s, c, Checked)
    ensures Accounted(OpenSection(s, c, true))
  {
    var t := OpenSection(s, c, true);
    forall id | id in t.open
      ensures id < t.next && (Current(t, id) || HeldBySome(t, id))
    {
      if id == s.next {
        assert c in t.calls && Holds(t.calls[c].phase) == Some(id);
      } else if HeldBySome(s, id) {
        var d :| d in s.calls && Holds(s.calls[d].phase) == Some(id);
        assert d in t.calls && Holds(t.calls[d].phase) == Some(id);
      }
    }
    forall d | d in t.calls
      ensures CallOk(t, d)
    {
      assert CallOk(s, d);
    }
    forall d | d in s.calls && d != c
      ensures Holds(t.calls[d].phase) != Some(s.next)
    {
      assert CallOk(s, d);
    }
  }

  /** The new server takes the place of the old one; the call now answers for the old one. */
  lemma SwapAccounted(s: State, c: nat)
    requires Accounted(s) && c in s.calls && s.calls[c].phase.Listening? && s.current.Some?
    requires s.current.value.addr != s.calls[c].addr
    ensures Accounted(CommitSection(s, c))
  {
    var t := CommitSection(s, c);
    var made, former := s.calls[c].phase.made, s.current.value;
    assert CallOk(s, c);
    forall id | id in t.open
      ensures Current(t, id) || HeldBySome(t, id)
    {
      if id == former.id {
        assert c in t.calls && Holds(t.calls[c].phase) == Some(id);
      } else if id != made.id {
        var d :| d in s.calls && Holds(s.calls[d].phase) == Some(id);
        assert d in t.calls && Holds(t.calls[d].phase) == Some(id);
      }
    }
    forall d | d in t.calls
      ensures CallOk(t, d)
      ensures d != c ==> Holds(t.calls[d].phase) != Some(former.id)
    {
      assert CallOk(s, d);
    }
  }

  /** The call closes what it holds and is done. */
  lemma CloseAccounted(s: State, c: nat, id: nat)
    requires Accounted(s) && c in s.calls && Holds(s.calls[c].phase) == Some(id)
    ensures Accounted(Moved(s, c, Returned(true)).(open := s.open - {id}))
  {
    var t := Moved(s, c, Returned(true)).(open := s.open - {id});
    assert CallOk(s, c);
    forall j | j in t.open
      ensures j < t.next && (Current(t, j) || HeldBySome(t, j))
    {
      if HeldBySome(s, j) {
        var d :| d in s.calls && Holds(s.calls[d].phase) == Some(j);
        assert d in t.calls && Holds(t.calls[d].phase) == Some(j);
      }
    }
    forall d | d in t.calls
      ensures CallOk(t, d)
    {
      assert CallOk(s, d);
    }
  }

  lemma EnterAccounted(s: State, c: nat, addr: string)
    requires Accounted(s) && c !in s.calls
    ensures Accounted(s.(calls := s.calls[c := Call(addr, Entered)]))
  {
    var t := s.(calls := s.calls[c := Call(addr, Entered)]);
    forall id: nat | HeldBySome(s, id)
      ensures HeldBySome(t, id)
    {
      var d :| d in s.calls && Holds(s.calls[d].phase) == Some(id);
      assert d in t.calls && Holds(t.calls[d].phase) == Some(id);
    }
    forall d | d in t.calls
      ensures CallOk(t, d)
    {
      assert d != c ==> CallOk(s, d);
    }
  }

  lemma OnlyListenersMatter(s: State, t: State)
    requires Accounted(s)
    requires t.current == s.current && t.open == s.open && t.next == s.next && t.calls == s.calls
    ensures Accounted(t)
  {
    forall id: nat | HeldBySome(s, id)
      ensures HeldBySome(t, id)
    {
      var d :| d in s.calls && Holds(s.calls[d].phase) == Some(id);
      assert d in t.calls && Holds(t.calls[d].phase) == Some(id);
    }
    forall d | d in t.calls
      ensures CallOk(t, d)
    {
      assert CallOk(s, d);
    }
  }

  lemma LoadAccounted(s: State, c: nat, addr: string)
    requires Accounted(s) && c !in s.calls
    ensures Accounted(LoadSection(s, c, addr))
  {
    var t := s.(calls := s.calls[c := Call(addr, Entered)]);
    EnterAccounted(s, c, addr);
    OnlyListenersMatter(if s.current.None? then s else t, LoadSection(s, c, addr));
  }

  lemma ConfirmAccounted(s: State, c: nat)
    requires Accounted(s) && c in s.calls && s.calls[c].phase.SameAddress?
    ensures Accounted(ConfirmSection(s, c))
  {
    MoveAccounted(s, c, Returned(true));
    OnlyListenersMatter(Moved(s, c, Returned(true)), ConfirmSection(s, c));
  }

  lemma CommitAccounted(s: State, c: nat)
    requires Accounted(s) && c in s.calls && s.calls[c].phase.Listening?
    ensures Accounted(CommitSection(s, c))
  {
    if s.current.None? || s.current.value.addr == s.calls[c].addr {
      MoveAccounted(s, c, Closing(s.calls[c].phase.made));
      OnlyListenersMatter(Moved(s, c, Closing(s.calls[c].phase.made)), CommitSection(s, c));
    } else {
      SwapAccounted(s, c);
    }
  }

  lemma AccountingKept(s: State, a: Section)
    requires Accounted(s)
    ensures Accounted(Take(s, a))
  {
    if Take(s, a) != s {
      match a
      case Enter(c, addr) => EnterAccounted(s, c, addr);
      case Peek(c) =>
        MoveAccounted(s, c, PeekSection(s, c).calls[c].phase);
      case Confirm(c) => ConfirmAccounted(s, c);
      case OpenListener(c, ok) =>
        if ok { OpenAccounted(s, c); } else { MoveAccounted(s, c, Returned(false)); }
      case Commit(c) => CommitAccounted(s, c);
      case CloseUnused(c) => CloseAccounted(s, c, s.calls[c].phase.made.id);
      case Touch(c) =>
        MoveAccounted(s, c, Retiring(s.calls[c].phase.former));
        OnlyListenersMatter(Moved(s, c, Retiring(s.calls[c].phase.former)), Take(s, a));
      case ShutDown(c) => CloseAccounted(s, c, s.calls[c].phase.former.id);
      case Load(c, addr) => LoadAccounted(s, c, addr);
      case _ => OnlyListenersMatter(s, Take(s, a));
    }
  }

  /** The server changes only by a swap, and then its address does: nobody moves it to where it is. */
  lemma SwapsAreMoves(s: State, a: Section)
    requires Accounted(s)
    ensures
      var t := Take(s, a);
      || (t.current == s.current && t.swaps == s.swaps)
      || (s.current.Some? && t.current.Some? && t.current.value.addr != s.current.value.addr && t.swaps == s.swaps + 1)
  {
    if a.Commit? && a.c in s.calls { assert CallOk(s, a.c); }
  }

  lemma CommitCounts(s: State, c: nat)
    requires c in s.calls && s.calls[c].phase.Listening?
    ensures var t := CommitSection(s, c);
            t.swaps - s.swaps == |Untouched(t)| - |Untouched(s)| && t.touches == s.touches
  {
    var t := CommitSection(s, c);
    if t.swaps != s.swaps {
      assert Untouched(t) == Untouched(s) + {c} && c !in Untouched(s);
    } else {
      assert Untouched(t) == Untouched(s);
    }
  }

  lemma TouchCounts(s: State, c: nat)
    requires c in s.calls && s.calls[c].phase.Swapped?
    ensures var t := Take(s, Touch(c));
            t.touches == s.touches + 1 && |Untouched(t)| == |Untouched(s)| - 1 && t.swaps == s.swaps
  {
    assert Untouched(Take(s, Touch(c))) == Untouched(s) - {c} && c in Untouched(s);
  }

  /** A call that moves on without swapping or touching. */
  lemma OthersCount(s: State, a: Section)
    requires !a.Commit? && !a.Touch?
    ensures Untouched(Take(s, a)) == Untouched(s)
    ensures Take(s, a).swaps == s.swaps && Take(s, a).touches == s.touches
  {
  }

  lemma CountKept(s: State, a: Section)
    requires s.swaps == s.touches + |Untouched(s)|
    ensures Take(s, a).swaps == Take(s, a).touches + |Untouched(Take(s, a))|
  {
    if a.Commit? {
      if a.c in s.calls && s.calls[a.c].phase.Listening? { CommitCounts(s, a.c); }
    } else if a.Touch? {
      if a.c in s.calls && s.calls[a.c].phase.Swapped? { TouchCounts(s, a.c); }
    } else {
      OthersCount(s, a);
    }
  }

  /** No call is between its first and its last section. */
  predicate Quiescent(s: State) {
    forall c :: c in s.calls ==> s.calls[c].phase.Returned?
  }

  /** Whatever calls run and however they interleave, with requests and reloads besides: every open
      listener is current or in the hands of exactly one call that will close it, and every swap
      but those of calls still at it has been followed by a touch. */
  lemma {:induction false} RunKeepsInv(s: State, sections: seq<Section>)
    requires Inv(s)
    ensures Inv(Run(s, sections))
    decreases |sections|
  {
    if sections != [] {
      AccountingKept(s, sections[0]);
      CountKept(s, sections[0]);
      RunKeepsInv(Take(s, sections[0]), sections[1..]);
    }
  }

  /** The agreement holds at every point of the run. */
  predicate AgreesThroughout(s: State, sections: seq<Section>)
    decreases |sections|
  {
    Agrees(s) && (sections == [] || AgreesThroughout(Take(s, sections[0]), sections[1..]))
  }

  /** Every publication of the run publishes the listen address it finds. */
  predicate NeverStale(s: State, sections: seq<Section>)
    decreases |sections|
  {
    sections == [] || (KeepsListen(s, sections[0]) && NeverStale(Take(s, sections[0]), sections[1..]))
  }

  /** The announced address is the one listened on at every point of a run exactly if no publication
      of the run brings back another listen address. */
  lemma {:induction false} AgreesThroughoutIff(s: State, sections: seq<Section>)
    requires Inv(s) && Agrees(s)
    ensures AgreesThroughout(s, sections) <==> NeverStale(s, sections)
    ensures NeverStale(s, sections) ==> Agrees(Run(s, sections))
    decreases |sections|
  {
    if sections != [] {
      AgreementKeptIff(s, sections[0]);
      AccountingKept(s, sections[0]);
      CountKept(s, sections[0]);
      if Agrees(Take(s, sections[0])) {
        AgreesThroughoutIff(Take(s, sections[0]), sections[1..]);
      }
    }
  }

  lemma {:induction false} DraftStays(s: State, sections: seq<Section>)
    requires s.draft.Some? && s.current.Some?
    requires forall a :: a in sections ==> !a.Publish? && !a.Abandon?
    ensures Run(s, sections).draft == s.draft && Run(s, sections).current.Some?
    decreases |sections|
  {
    if sections != [] {
      DraftStays(Take(s, sections[0]), sections[1..]);
    }
  }

  /** One management request beside any number of calls: once it has published, announced and
      real address agree exactly if the server is where it was when the request copied. */
  lemma RequestAgreesIff(s: State, between: seq<Section>)
    requires Agrees(s) && s.draft.None? && s.current.Some?
    requires forall a :: a in between ==> !a.Publish? && !a.Abandon?
    ensures
      var t := Take(Run(Take(s, Copy), between), Publish);
      && t.current.Some? && t.listen == s.listen
      && (Agrees(t) <==> t.current.value.addr == s.current.value.addr)
  {
    DraftStays(Take(s, Copy), between);
  }

  /** One reload, whose own call has returned, beside any others: once it has published, they agree
      exactly if no other call has moved the server elsewhere since. */
  lemma ReloadAgreesIff(s: State, c: nat, addr: string, between: seq<Section>)
    requires s.draft.None? && s.current.Some? && c !in s.calls
    requires forall a :: a in between ==> !a.Publish? && !a.Abandon?
    requires At(Run(Take(s, Load(c, addr)), between), c, Returned(true))
    ensures
      var t := Take(Run(Take(s, Load(c, addr)), between), Publish);
      && t.current.Some? && t.listen == addr
      && (Agrees(t) <==> t.current.value.addr == addr)
  {
    DraftStays(Take(s, Load(c, addr)), between);
  }

  /** A call that runs from start to swap between the copy and the publication of a request is
      undone in the configuration alone: the server listens at the new address, the old one is
      announced. */
  lemma PublicationUndoesRebind(s: State, c: nat, addr: string)
    requires Inv(s) && Agrees(s) && s.draft.None? && s.current.Some? && s.current.value.addr != addr && c !in s.calls
    ensures
      var t := Run(s, [Copy, Enter(c, addr), Peek(c), OpenListener(c, true), Commit(c), Publish]);
      && Inv(t) && t.current.Some? && t.current.value.addr == addr && t.listen == s.listen && !Agrees(t)
  {
    var sections := [Copy, Enter(c, addr), Peek(c), OpenListener(c, true), Commit(c), Publish];
    RunKeepsInv(s, sections);
    RunSix(s, sections);
    OverlapSteps(s, c, addr);
  }

  lemma OverlapSteps(s: State, c: nat, addr: string)
    requires s.draft.None? && s.current.Some? && s.current.value.addr != addr && c !in s.calls
    ensures
      var t := Take(Take(Take(Take(Take(Take(s, Copy), Enter(c, addr)), Peek(c)), OpenListener(c, true)), Commit(c)),
                    Publish);
      t.current == Some(HttpServer(s.next, addr)) && t.listen == s.listen
  {
    var s1 := Take(s, Copy);
    CallListens(s1, c, addr);
    CallSwaps(Take(Take(s1, Enter(c, addr)), Peek(c)), c, addr);
  }

  /** A call for another address goes on to listen there. */
  lemma CallListens(s: State, c: nat, addr: string)
    requires s.current.Some? && s.current.value.addr != addr && c !in s.calls
    ensures Take(Take(s, Enter(c, addr)), Peek(c)) == s.(calls := s.calls[c := Call(addr, Checked)])
  {
    var t := Take(s, Enter(c, addr));
    assert t.calls[c] == Call(addr, Entered);
    assert Take(t, Peek(c)).calls == s.calls[c := Call(addr, Checked)];
  }

  lemma CallSwaps(s: State, c: nat, addr: string)
    requires s.current.Some? && s.current.value.addr != addr && At(s, c, Checked) && s.calls[c].addr == addr
    ensures
      var t := Take(Take(s, OpenListener(c, true)), Commit(c));
      && t.current == Some(HttpServer(s.next, addr)) && t.listen == addr && t.draft == s.draft
      && t.calls == s.calls[c := Call(addr, Swapped(s.current.value))]
  {
    var made := HttpServer(s.next, addr);
    var t := Take(s, OpenListener(c, true));
    assert t.calls == s.calls[c := Call(addr, Listening(made))];
    assert Take(t, Commit(c)).calls == s.calls[c := Call(addr, Swapped(s.current.value))];
  }

  /** When all calls have returned, nothing is left open but the current listener, and the
      registry was touched once for every swap. */
  lemma NothingLeaks(s: State, sections: seq<Section>)
    requires Inv(s) && Quiescent(Run(s, sections))
    ensures
      var t := Run(s, sections);
      t.open == (if t.current.Some? then {t.current.value.id} else {}) && t.touches == t.swaps
  {
    RunKeepsInv(s, sections);
    var t := Run(s, sections);
    assert forall id :: id in t.open ==> !HeldBySome(t, id);
    assert Untouched(t) == {};
  }

  // Calls that fail

  /** During the run the listen of call `c` fails. */
  predicate ListenFails(s: State, sections: seq<Section>, c: nat)
    decreases |sections|
  {
    sections != [] &&
    ((sections[0] == OpenListener(c, false) && At(s, c, Checked))
     || ListenFails(Take(s, sections[0]), sections[1..], c))
  }

  lemma FailingStep(s: State, a: Section, c: nat)
    ensures At(Take(s, a), c, Returned(false)) <==>
            At(s, c, Returned(false)) || (a == OpenListener(c, false) && At(s, c, Checked))
  {
  }

  /** In any run a call ends in failure exactly if its listen failed, and then stays so. */
  lemma {:induction false} FailsIff(s: State, sections: seq<Section>, c: nat)
    ensures At(Run(s, sections), c, Returned(false)) <==> At(s, c, Returned(false)) || ListenFails(s, sections, c)
    decreases |sections|
  {
    if sections != [] {
      FailingStep(s, sections[0], c);
      FailsIff(Take(s, sections[0]), sections[1..], c);
    }
  }

  /** The section is one of call `c`. */
  predicate Of(a: Section, c: nat) {
    !a.Copy? && !a.Publish? && !a.Abandon? && a.c == c
  }

  /** No section of call `c` changes the server, the listen address or the listeners. */
  predicate Harmless(s: State, sections: seq<Section>, c: nat)
    decreases |sections|
  {
    sections == [] ||
    var t := Take(s, sections[0]);
    && (Of(sections[0], c) ==> t.current == s.current && t.listen == s.listen && t.open == s.open)
    && Harmless(t, sections[1..], c)
  }

  /** A call that can still fail. */
  predicate MayFail(s: State, c: nat) {
    c in s.calls ==> s.calls[c].phase.Entered? || s.calls[c].phase.Checked? || s.calls[c].phase == Returned(false)
  }

  lemma PastFailing(s: State, a: Section, c: nat)
    requires !MayFail(s, c)
    ensures !MayFail(Take(s, a), c)
  {
  }

  lemma {:induction false} NeverFails(s: State, sections: seq<Section>, c: nat)
    requires !MayFail(s, c)
    ensures !At(Run(s, sections), c, Returned(false))
    decreases |sections|
  {
    if sections != [] {
      PastFailing(s, sections[0], c);
      NeverFails(Take(s, sections[0]), sections[1..], c);
    }
  }

  /** A call that ends in failure has changed nothing, whatever ran beside it. */
  lemma {:induction false} FailedCallIsHarmless(s: State, sections: seq<Section>, c: nat)
    requires MayFail(s, c) && At(Run(s, sections), c, Returned(false))
    ensures Harmless(s, sections, c)
    decreases |sections|
  {
    if sections != [] {
      var t := Take(s, sections[0]);
      if !MayFail(t, c) {
        NeverFails(t, sections[1..], c);
        assert false;
      }
      FailedCallIsHarmless(t, sections[1..], c);
    }
  }

  /** There is no server yet, or it listens there. */
  predicate ListensAt(s: State, addr: string) {
    s.current.Some? ==> s.current.value.addr == addr
  }

  predicate ListensOnceAt(s: State, sections: seq<Section>, addr: string)
    decreases |sections|
  {
    ListensAt(s, addr) || (sections != [] && ListensOnceAt(Take(s, sections[0]), sections[1..], addr))
  }

  /** The call has not found or put the server where it wants it. */
  predicate Seeking(s: State, c: nat, addr: string) {
    && c in s.calls && s.calls[c].addr == addr
    && (s.calls[c].phase.Listening? || s.calls[c].phase.Entered? || s.calls[c].phase.Checked?)
  }

  lemma SeekingStep(s: State, a: Section, c: nat, addr: string)
    requires Accounted(s) && Seeking(s, c, addr)
    ensures
      var t := Take(s, a);
      Seeking(t, c, addr) || At(t, c, Returned(false)) || ListensAt(s, addr) || ListensAt(t, addr)
  {
    assert CallOk(s, c);
  }

  /** A call succeeds only if, at an instant between its start and its end, the server listens where
      the call wants it, or there is none. */
  lemma {:induction false} SucceedsOnlyThere(s: State, sections: seq<Section>, c: nat, addr: string)
    requires Accounted(s) && Seeking(s, c, addr) && At(Run(s, sections), c, Returned(true))
    ensures ListensOnceAt(s, sections, addr)
    decreases |sections|
  {
    if sections != [] {
      var t := Take(s, sections[0]);
      SeekingStep(s, sections[0], c, addr);
      AccountingKept(s, sections[0]);
      if Seeking(t, c, addr) {
        SucceedsOnlyThere(t, sections[1..], c, addr);
      } else if At(t, c, Returned(false)) {
        FailsIff(t, sections[1..], c);
      }
    }
  }

  /** A reload whose own call has failed never publishes: whatever runs beside it, its draft is left
      as it is until it is given up, and giving it up leaves the listen address alone. */
  lemma {:induction false} FailedReloadNeverPublishes(s: State, sections: seq<Section>, c: nat)
    requires s.draft.Some? && s.draft.value.via == Some(c) && At(s, c, Returned(false))
    requires Abandon !in sections
    ensures
      var t := Run(s, sections);
      && t.draft == s.draft && Take(t, Publish) == t
      && Take(t, Abandon) == t.(draft := None)
    decreases |sections|
  {
    if sections != [] {
      FailedReloadNeverPublishes(Take(s, sections[0]), sections[1..], c);
    }
  }

  /** A reload alone whose address cannot be listened on leaves everything as it was. */
  lemma FailedReloadKeepsAll(s: State, c: nat, addr: string)
    requires s.draft.None? && s.current.Some? && s.current.value.addr != addr && c !in s.calls
    ensures
      var t := Run(s, [Load(c, addr), Peek(c), OpenListener(c, false), Publish, Abandon]);
      && t.(calls := s.calls) == s && t.calls == s.calls[c := Call(addr, Returned(false))]
      && (Agrees(s) ==> Agrees(t))
  {
    var sections := [Load(c, addr), Peek(c), OpenListener(c, false), Publish, Abandon];
    RunThree(s, sections);
    assert sections[3..] == [Publish, Abandon];
    var s1 := Take(s, Load(c, addr));
    assert s1.calls == s.calls[c := Call(addr, Entered)];
    var s2 := Take(s1, Peek(c));
    assert s2.calls == s.calls[c := Call(addr, Checked)];
    var s3 := Take(s2, OpenListener(c, false));
    assert s3.calls == s.calls[c := Call(addr, Returned(false))];
    FailedReloadNeverPublishes(s3, [], c);
    RunOne(s3, [Publish, Abandon]);
    RunOne(s3, [Abandon]);
  }

  /** What the sections of a call make of its own phase and of the server, when it is alone. */
  lemma AloneSteps(s: State, c: nat, addr: string)
    requires s.current.Some? && c !in s.calls
    ensures
      var s3 := Take(Take(Take(s, Enter(c, addr)), Peek(c)), Confirm(c));
      var t := Take(Take(Take(Take(s3, OpenListener(c, true)), Commit(c)), Touch(c)), ShutDown(c));
      && t.calls.Keys == s.calls.Keys + {c} && t.calls[c].phase == Returned(true)
      && (forall d :: d in s.calls ==> t.calls[d] == s.calls[d])
      && t.listen == addr && t.current.Some? && t.current.value.addr == addr
      && (s.current.value.addr == addr ==> t.current == s.current && t.next == s.next)
  {
    var s2 := Take(Take(s, Enter(c, addr)), Peek(c));
    if s.current.value.addr == addr {
      assert s2.calls[c] == Call(addr, SameAddress(s.current.value));
      assert Take(s2, Confirm(c)) == Moved(s2, c, Returned(true)).(listen := addr);
    } else {
      CallListens(s, c, addr);
      CallSwaps(s2, c, addr);
      CallRetires(Take(Take(s2, OpenListener(c, true)), Commit(c)), c);
    }
  }

  lemma CallRetires(s: State, c: nat)
    requires c in s.calls && s.calls[c].phase.Swapped?
    ensures
      var t := Take(Take(s, Touch(c)), ShutDown(c));
      && t.current == s.current && t.listen == s.listen
      && t.calls == s.calls[c := Call(s.calls[c].addr, Returned(true))]
  {
    assert Take(s, Touch(c)).calls[c] == Call(s.calls[c].addr, Retiring(s.calls[c].phase.former));
  }

  /** A call that is alone gets its way: afterwards the server listens where it was told, and
      nothing else is left open. If it listened there before, no new listener was opened. */
  lemma AloneItTakesEffect(s: State, c: nat, addr: string)
    requires Inv(s) && Quiescent(s) && s.current.Some? && c !in s.calls
    ensures
      var t := Run(s, [Enter(c, addr), Peek(c), Confirm(c), OpenListener(c, true), Commit(c), Touch(c), ShutDown(c)]);
      && Quiescent(t) && t.listen == addr
      && t.current.Some? && t.current.value.addr == addr && t.open == {t.current.value.id}
      && (s.current.value.addr == addr ==> t.current == s.current && t.next == s.next)
  {
    var sections := [Enter(c, addr), Peek(c), Confirm(c), OpenListener(c, true), Commit(c), Touch(c), ShutDown(c)];
    RunSeven(s, sections);
    AloneSteps(s, c, addr);
    NothingLeaks(s, sections);
  }

  lemma RunSeven(s: State, sections: seq<Section>)
    requires |sections| == 7
    ensures Run(s, sections) ==
            Take(Take(Take(Take(Take(Take(Take(s, sections[0]), sections[1]), sections[2]), sections[3]), sections[4]),
                      sections[5]), sections[6])
  {
    RunOne(s, sections);
    RunSix(Take(s, sections[0]), sections[1..]);
  }

  lemma RunSix(s: State, sections: seq<Section>)
    requires |sections| == 6
    ensures Run(s, sections) ==
            Take(Take(Take(Take(Take(Take(s, sections[0]), sections[1]), sections[2]), sections[3]), sections[4]),
                 sections[5])
  {
    RunThree(s, sections);
    RunThree(Take(Take(Take(s, sections[0]), sections[1]), sections[2]), sections[3..]);
  }

  lemma RunThree(s: State, sections: seq<Section>)
    requires |sections| >= 3
    ensures Run(s, sections) == Run(Take(Take(Take(s, sections[0]), sections[1]), sections[2]), sections[3..])
  {
    RunOne(s, sections);
    RunOne(Take(s, sections[0]), sections[1..]);
    RunOne(Take(Take(s, sections[0]), sections[1]), sections[1..][1..]);
    assert sections[1..][1..][1..] == sections[3..];
  }

  lemma RunOne(s: State, sections: seq<Section>)
    requires sections != []
    ensures Run(s, sections) == Run(Take(s, sections[0]), sections[1..])
    ensures |sections| == 1 ==> Run(s, sections) == Take(s, sections[0])
  {
  }
}
