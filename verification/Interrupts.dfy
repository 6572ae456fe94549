// The interrupt controller (src/core/InterruptController.cpp): the value it
// holds, what any sequence of calls does to its queue, and the C++ object.
module Interrupts {
  import opened Words

  const VECTOR_COUNT: nat := 256

  datatype Request = Request(vector: byte, payload: i64, source: string)

  type Masks = m: seq<bool> | |m| == VECTOR_COUNT witness seq(VECTOR_COUNT, _ => false)
  type Handlers = h: seq<Option<u64>> | |h| == VECTOR_COUNT witness seq(VECTOR_COUNT, _ => None)

  datatype Controller = Controller(enabled: bool, masks: Masks, handlers: Handlers, pending: seq<Request>)

  const CLEARED := Controller(true, seq(VECTOR_COUNT, _ => false), seq(VECTOR_COUNT, _ => None), [])

  predicate Deliverable(c: Controller, r: Request) {
    !c.masks[r.vector] && c.handlers[r.vector].Some?
  }

  predicate Matches(r: Request, vector: byte, source: string) {
    r.vector == vector && r.source == source
  }

  function FirstDeliverableFrom(c: Controller, i: nat): (k: nat)
    requires i <= |c.pending|
    ensures i <= k <= |c.pending|
    ensures k < |c.pending| ==> Deliverable(c, c.pending[k])
    ensures forall j :: i <= j < k ==> !Deliverable(c, c.pending[j])
    decreases |c.pending| - i
  {
    if i == |c.pending| || Deliverable(c, c.pending[i]) then i else FirstDeliverableFrom(c, i + 1)
  }

  /** findDeliverable(): an index into pending, or |pending| for the end iterator. */
  function FindDeliverable(c: Controller): (k: nat)
    ensures k <= |c.pending|
  {
    if !c.enabled then |c.pending| else FirstDeliverableFrom(c, 0)
  }

  predicate HasPending(c: Controller) {
    FindDeliverable(c) < |c.pending|
  }

  function FirstMatchFrom(c: Controller, vector: byte, source: string, i: nat): (k: nat)
    requires i <= |c.pending|
    ensures i <= k <= |c.pending|
    ensures k < |c.pending| ==> Matches(c.pending[k], vector, source)
    ensures forall j :: i <= j < k ==> !Matches(c.pending[j], vector, source)
    decreases |c.pending| - i
  {
    if i == |c.pending| || Matches(c.pending[i], vector, source) then i
    else FirstMatchFrom(c, vector, source, i + 1)
  }

  /** findDeliverable(vector, source): needs no handler, unlike the general form. */
  function FindDeliverableFor(c: Controller, vector: byte, source: string): (k: nat)
    ensures k <= |c.pending|
  {
    if !c.enabled || c.masks[vector] then |c.pending| else FirstMatchFrom(c, vector, source, 0)
  }

  function RemoveAt(q: seq<Request>, k: nat): seq<Request>
    requires k < |q|
  {
    q[..k] + q[k + 1..]
  }

  function Take(c: Controller, k: nat): Controller
    requires k < |c.pending|
  {
    c.(pending := RemoveAt(c.pending, k))
  }

  // ----- Whole histories of calls -----

  datatype Call =
    | Issue(r: Request)
    | Enable(on: bool)
    | Mask(vector: byte)
    | Unmask(vector: byte)
    | SetHandler(vector: byte, address: u64)
    | ClearHandler(vector: byte)
    | Acknowledge
    | AcknowledgeFor(vector: byte, source: string)

  datatype History = History(c: Controller, issued: seq<Request>, delivered: seq<Request>)

  function Deliver(h: History, k: nat): History
    requires k < |h.c.pending|
  {
    h.(c := Take(h.c, k), delivered := h.delivered + [h.c.pending[k]])
  }

  /** One call; an acknowledge with nothing to deliver throws and changes nothing. */
  function Apply(h: History, call: Call): History {
    match call
    case Issue(r) => h.(c := h.c.(pending := h.c.pending + [r]), issued := h.issued + [r])
    case Enable(on) => h.(c := h.c.(enabled := on))
    case Mask(v) => h.(c := h.c.(masks := h.c.masks[v := true]))
    case Unmask(v) => h.(c := h.c.(masks := h.c.masks[v := false]))
    case SetHandler(v, a) => h.(c := h.c.(handlers := h.c.handlers[v := Some(a)]))
    case ClearHandler(v) => h.(c := h.c.(handlers := h.c.handlers[v := None]))
    case Acknowledge =>
      var k := FindDeliverable(h.c);
      if k < |h.c.pending| then Deliver(h, k) else h
    case AcknowledgeFor(v, source) =>
      var k := FindDeliverableFor(h.c, v, source);
      if k < |h.c.pending| then Deliver(h, k) else h
  }

  function ApplyAll(h: History, calls: seq<Call>): History {
    if |calls| == 0 then h else Apply(ApplyAll(h, calls[..|calls| - 1]), calls[|calls| - 1])
  }

  const EMPTY_HISTORY := History(CLEARED, [], [])

  lemma RemoveAtMultiset(q: seq<Request>, k: nat)
    requires k < |q|
    ensures multiset(q) == multiset(RemoveAt(q, k)) + multiset{q[k]}
  {
    assert q == q[..k] + [q[k]] + q[k + 1..];
  }

  predicate Conserved(h: History) {
    multiset(h.issued) == multiset(h.delivered) + multiset(h.c.pending)
  }

  lemma DeliverConserves(h: History, k: nat)
    requires k < |h.c.pending| && Conserved(h)
    ensures Conserved(Deliver(h, k))
  {
    RemoveAtMultiset(h.c.pending, k);
  }

  lemma ApplyConserves(h: History, call: Call)
    requires Conserved(h)
    ensures Conserved(Apply(h, call))
  {
    match call {
      case Acknowledge =>
        if HasPending(h.c) { DeliverConserves(h, FindDeliverable(h.c)); }
      case AcknowledgeFor(v, source) =>
        var k := FindDeliverableFor(h.c, v, source);
        if k < |h.c.pending| { DeliverConserves(h, k); }
      case _ =>
    }
  }

  /** Every request issued is delivered once or still pending, over any sequence of calls. */
  lemma {:induction false} RequestsAreConserved(calls: seq<Call>)
    ensures Conserved(ApplyAll(EMPTY_HISTORY, calls))
  {
    if |calls| == 0 {
    } else {
      RequestsAreConserved(calls[..|calls| - 1]);
      ApplyConserves(ApplyAll(EMPTY_HISTORY, calls[..|calls| - 1]), calls[|calls| - 1]);
    }
  }

  /** The general acknowledge takes the earliest deliverable request and keeps the order of the rest. */
  lemma AcknowledgeTakesEarliest(h: History)
    requires HasPending(h.c)
    ensures exists k: nat ::
              && k < |h.c.pending|
              && h.c.enabled && Deliverable(h.c, h.c.pending[k])
              && (forall j :: 0 <= j < k ==> !Deliverable(h.c, h.c.pending[j]))
              && Apply(h, Acknowledge).delivered == h.delivered + [h.c.pending[k]]
              && Apply(h, Acknowledge).c.pending == h.c.pending[..k] + h.c.pending[k + 1..]
  {
    var k := FindDeliverable(h.c);
    assert Apply(h, Acknowledge) == Deliver(h, k);
  }

  function OnVector(q: seq<Request>, v: byte): (r: seq<Request>)
    ensures forall x :: x in r ==> x.vector == v && x in q
  {
    if |q| == 0 then []
    else (if q[0].vector == v then [q[0]] else []) + OnVector(q[1..], v)
  }

  lemma {:induction false} OnVectorConcat(a: seq<Request>, b: seq<Request>, v: byte)
    ensures OnVector(a + b, v) == OnVector(a, v) + OnVector(b, v)
  {
    if |a| == 0 {
      assert a + b == b;
    } else {
      assert (a + b)[1..] == a[1..] + b;
      OnVectorConcat(a[1..], b, v);
    }
  }

  lemma OnVectorSingle(r: Request, v: byte)
    ensures OnVector([r], v) == if r.vector == v then [r] else []
  {
  }

  lemma OnVectorRemove(q: seq<Request>, k: nat, v: byte)
    requires k < |q|
    ensures OnVector(q, v)
         == OnVector(q[..k], v) + (if q[k].vector == v then [q[k]] else []) + OnVector(q[k + 1..], v)
    ensures OnVector(RemoveAt(q, k), v) == OnVector(q[..k], v) + OnVector(q[k + 1..], v)
  {
    hide OnVector;
    assert q == q[..k] + ([q[k]] + q[k + 1..]);
    OnVectorConcat(q[..k], [q[k]] + q[k + 1..], v);
    OnVectorConcat([q[k]], q[k + 1..], v);
    OnVectorSingle(q[k], v);
    OnVectorConcat(q[..k], q[k + 1..], v);
  }

  lemma {:induction false} OnVectorEmpty(q: seq<Request>, v: byte)
    requires forall r :: r in q ==> r.vector != v
    ensures OnVector(q, v) == []
  {
    if |q| > 0 {
      assert forall r :: r in q[1..] ==> r in q;
      OnVectorEmpty(q[1..], v);
    }
  }

  /** On vector v, what was delivered and then what is pending is what was issued, in that order. */
  predicate InOrder(h: History, v: byte) {
    OnVector(h.delivered, v) + OnVector(h.c.pending, v) == OnVector(h.issued, v)
  }

  /** Delivering index k keeps the order on v when nothing earlier is on the same vector. */
  lemma DeliverKeepsOrder(h: History, k: nat, v: byte)
    requires k < |h.c.pending| && InOrder(h, v)
    requires h.c.pending[k].vector == v ==> OnVector(h.c.pending[..k], v) == []
    ensures InOrder(Deliver(h, k), v)
  {
    hide OnVector;
    OnVectorRemove(h.c.pending, k, v);
    OnVectorConcat(h.delivered, [h.c.pending[k]], v);
    OnVectorSingle(h.c.pending[k], v);
  }

  lemma IssueKeepsOrder(h: History, r: Request, v: byte)
    requires InOrder(h, v)
    ensures InOrder(Apply(h, Issue(r)), v)
  {
    hide OnVector;
    OnVectorConcat(h.issued, [r], v);
    OnVectorConcat(h.c.pending, [r], v);
  }

  lemma AcknowledgeKeepsOrder(h: History, v: byte)
    requires InOrder(h, v)
    ensures InOrder(Apply(h, Acknowledge), v)
  {
    hide OnVector, InOrder;
    var k := FindDeliverable(h.c);
    if k < |h.c.pending| {
      if h.c.pending[k].vector == v {
        assert forall r :: r in h.c.pending[..k] ==> r.vector != v;
        OnVectorEmpty(h.c.pending[..k], v);
      }
      DeliverKeepsOrder(h, k, v);
    }
  }

  lemma SettingKeepsOrder(h: History, call: Call, v: byte)
    requires InOrder(h, v) && (call.Enable? || call.Mask? || call.Unmask? || call.SetHandler? || call.ClearHandler?)
    ensures InOrder(Apply(h, call), v)
  {
    hide OnVector;
  }

  /** With the general acknowledge only, no two requests on one vector are delivered out of order. */
  lemma {:induction false} GeneralAcknowledgeIsFifo(calls: seq<Call>, v: byte)
    requires forall i :: 0 <= i < |calls| ==> !calls[i].AcknowledgeFor?
    ensures InOrder(ApplyAll(EMPTY_HISTORY, calls), v)
  {
    if |calls| == 0 {
    } else {
      var h := ApplyAll(EMPTY_HISTORY, calls[..|calls| - 1]);
      GeneralAcknowledgeIsFifo(calls[..|calls| - 1], v);
      hide InOrder, Apply;
      var call := calls[|calls| - 1];
      if call.Issue? {
        IssueKeepsOrder(h, call.r, v);
      } else if call.Acknowledge? {
        AcknowledgeKeepsOrder(h, v);
      } else {
        SettingKeepsOrder(h, call, v);
      }
    }
  }

  /** The oldest pending request on the vector came from this source (or there is nothing to take). */
  predicate OldestHasSource(c: Controller, v: byte, source: string) {
    var k := FindDeliverableFor(c, v, source);
    var queue := OnVector(c.pending, v);
    k < |c.pending| ==> |queue| > 0 && queue[0].source == source
  }

  /** acknowledge(vector, source) keeps its vector in order exactly when the oldest request there has that source. */
  lemma AcknowledgeForKeepsOrder(h: History, v: byte, source: string)
    requires InOrder(h, v)
    ensures InOrder(Apply(h, AcknowledgeFor(v, source)), v) <==> OldestHasSource(h.c, v, source)
  {
    var k := FindDeliverableFor(h.c, v, source);
    if k < |h.c.pending| {
      var before := OnVector(h.c.pending[..k], v);
      OnVectorRemove(h.c.pending, k, v);
      if before == [] {
        DeliverKeepsOrder(h, k, v);
      } else {
        assert before[0] in h.c.pending[..k];
        assert before[0].source != source;
        OnVectorConcat(h.delivered, [h.c.pending[k]], v);
        OnVectorSingle(h.c.pending[k], v);
        var t := Deliver(h, k);
        var n := |OnVector(h.delivered, v)|;
        assert OnVector(t.delivered, v)[n] == h.c.pending[k];
        assert (OnVector(t.delivered, v) + OnVector(t.c.pending, v))[n] == h.c.pending[k];
        assert OnVector(h.issued, v)[n] == before[0];
      }
    }
  }

  /** The failing family is not empty: two sources share vector 1 and the later one is taken first. */
  lemma AcknowledgeForCanReorder()
    ensures !InOrder(ApplyAll(EMPTY_HISTORY,
                              [Issue(Request(1, 0, "a")), Issue(Request(1, 0, "b")), AcknowledgeFor(1, "b")]), 1)
  {
    var a, b := Request(1, 0, "a"), Request(1, 0, "b");
    var calls := [Issue(a), Issue(b), AcknowledgeFor(1, "b")];
    assert calls[..2] == [Issue(a), Issue(b)] && calls[..2][..1] == [Issue(a)];
    var h := ApplyAll(EMPTY_HISTORY, calls[..2]);
    assert ApplyAll(EMPTY_HISTORY, calls[..2][..1]) == Apply(EMPTY_HISTORY, Issue(a));
    assert h.c.pending == [a, b] && h.issued == [a, b];
    assert [a, b][1..] == [b] && [b][1..] == [];
    assert OnVector([b], 1) == [b];
    assert OnVector([a, b], 1) == [a, b];
    AcknowledgeForKeepsOrder(h, 1, "b");
    assert FirstMatchFrom(h.c, 1, "b", 0) == FirstMatchFrom(h.c, 1, "b", 1) == 1;
  }

  // ----- The C++ object -----

  class InterruptController {
    const masks: array<bool>
    const handlers: array<Option<u64>>
    var pending: seq<Request>
    var enabled: bool

    ghost predicate Valid()
      reads this
    {
      masks.Length == VECTOR_COUNT && handlers.Length == VECTOR_COUNT
    }

    ghost function View(): Controller
      reads this, masks, handlers
      requires Valid()
    {
      Controller(enabled, masks[..], handlers[..], pending)
    }

    constructor ()
      ensures Valid() && fresh(masks) && fresh(handlers)
      ensures View() == CLEARED
    {
      masks := new bool[VECTOR_COUNT](_ => false);
      handlers := new Option<u64>[VECTOR_COUNT](_ => None);
      pending := [];
      enabled := true;
    }

    method Issue(r: Request)
      requires Valid()
      modifies this
      ensures Valid() && View() == Apply(History(old(View()), [], []), Call.Issue(r)).c
    {
      pending := pending + [r];
    }

    method SetGlobalEnabled(on: bool)
      requires Valid()
      modifies this
      ensures Valid() && View() == Apply(History(old(View()), [], []), Enable(on)).c
    {
      enabled := on;
    }

    method SetMask(vector: byte, on: bool)
      requires Valid()
      modifies masks
      ensures Valid()
      ensures View() == Apply(History(old(View()), [], []), if on then Mask(vector) else Unmask(vector)).c
    {
      masks[vector] := on;
    }

    method SetVectorHandler(vector: byte, handler: Option<u64>)
      requires Valid()
      modifies handlers
      ensures Valid()
      ensures View() == Apply(History(old(View()), [], []),
                              if handler.Some? then SetHandler(vector, handler.value) else ClearHandler(vector)).c
    {
      handlers[vector] := handler;
    }

    method Find() returns (k: nat)
      requires Valid()
      ensures k == FindDeliverable(View())
    {
      if !enabled {
        return |pending|;
      }
      k := 0;
      while k < |pending|
        invariant k <= |pending|
        invariant FirstDeliverableFrom(View(), 0) == FirstDeliverableFrom(View(), k)
      {
        var v := pending[k].vector;
        if !masks[v] && handlers[v].Some? {
          return;
        }
        k := k + 1;
      }
    }

    method FindFor(vector: byte, source: string) returns (k: nat)
      requires Valid()
      ensures k == FindDeliverableFor(View(), vector, source)
    {
      if !enabled || masks[vector] {
        return |pending|;
      }
      k := 0;
      while k < |pending|
        invariant k <= |pending|
        invariant FirstMatchFrom(View(), vector, source, 0) == FirstMatchFrom(View(), vector, source, k)
      {
        if pending[k].vector == vector && pending[k].source == source {
          return;
        }
        k := k + 1;
      }
    }

    method Acknowledge() returns (r: Result<Request>)
      requires Valid()
      modifies this
      ensures Valid()
      ensures var h := Apply(History(old(View()), [], []), Call.Acknowledge);
              View() == h.c && r == if h.delivered == [] then Err else Ok(h.delivered[0])
    {
      var k := Find();
      if k == |pending| {
        return Err;
      }
      r := Ok(pending[k]);
      pending := pending[..k] + pending[k + 1..];
    }

    method AcknowledgeFor(vector: byte, source: string) returns (r: Result<Request>)
      requires Valid()
      modifies this
      ensures Valid()
      ensures var h := Apply(History(old(View()), [], []), Call.AcknowledgeFor(vector, source));
              View() == h.c && r == if h.delivered == [] then Err else Ok(h.delivered[0])
    {
      var k := FindFor(vector, source);
      if k == |pending| {
        return Err;
      }
      r := Ok(pending[k]);
      pending := pending[..k] + pending[k + 1..];
    }
  }
}
