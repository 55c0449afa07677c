/** What a dispatch over the handler list amounts to, read off the sequence of entries. */
module VehDispatch {
  import opened VehList

  function Live(items: seq<Item>): seq<Item> {
    if items == [] then []
    else if items[0].deleted then Live(items[1..])
    else [items[0]] + Live(items[1..])
  }

  function EntriesOf(items: seq<Item>): (r: seq<Entry>)
    ensures |r| == |items| && forall i :: 0 <= i < |items| ==> r[i] == items[i].entry
  {
    seq(|items|, i requires 0 <= i < |items| => items[i].entry)
  }

  predicate Continues(item: Item, behave: Handler -> Behaviour) {
    behave(item.handler).disposition == ContinueExecution
  }

  /** How many of `live` a dispatch calls. */
  function Reach(live: seq<Item>, behave: Handler -> Behaviour): (n: nat)
    ensures n <= |live|
    ensures forall i :: 0 <= i < n - 1 ==> !Continues(live[i], behave)
    ensures n < |live| ==> n > 0 && Continues(live[n - 1], behave)
  {
    if live == [] then 0 else if Continues(live[0], behave) then 1 else 1 + Reach(live[1..], behave)
  }

  lemma {:induction false} CallsReach(items: seq<Item>, behave: Handler -> Behaviour)
    ensures Dispatched(items, behave).calls == EntriesOf(Live(items)[..Reach(Live(items), behave)])
  {
    if items != [] {
      CallsReach(items[1..], behave);
      if !items[0].deleted {
        var live, tail := Live(items), Live(items[1..]);
        var n := Reach(live, behave);
        assert live[0] == items[0] && live[1..] == tail;
        assert live[..n] == [items[0]] + tail[..n - 1];
        assert EntriesOf(live[..n]) == [items[0].entry] + EntriesOf(tail[..n - 1]);
      }
    }
  }

  lemma {:induction false} HandledReach(items: seq<Item>, behave: Handler -> Behaviour)
    ensures Dispatched(items, behave).handled <==>
              Reach(Live(items), behave) > 0 && Continues(Live(items)[Reach(Live(items), behave) - 1], behave)
  {
    if items != [] {
      HandledReach(items[1..], behave);
      hide AfterCall;
      if !items[0].deleted {
        ReachCons(items[0], Live(items[1..]), behave);
      }
    }
  }

  lemma ReachCons(item: Item, rest: seq<Item>, behave: Handler -> Behaviour)
    ensures Reach([item] + rest, behave) == if Continues(item, behave) then 1 else 1 + Reach(rest, behave)
  {
    assert ([item] + rest)[1..] == rest;
  }

  /**
   The handlers called are exactly the live ones up to and including the first that continues
   execution; the dispatch reports TRUE exactly when there is such a one.
  */
  lemma {:induction false} CallsThePrefix(items: seq<Item>, behave: Handler -> Behaviour)
    ensures var live, out := Live(items), Dispatched(items, behave); var n := |out.calls|;
      && n <= |live|
      && out.calls == EntriesOf(live[..n])
      && (forall i :: 0 <= i < n - 1 ==> !Continues(live[i], behave))
      && (if out.handled then n > 0 && Continues(live[n - 1], behave)
          else n == |live| && forall i :: 0 <= i < |live| ==> !Continues(live[i], behave))
  {
    hide Dispatched, Live, Reach, Continues;
    CallsReach(items, behave);
    HandledReach(items, behave);
  }

  function Bag(items: seq<Item>): multiset<Entry> {
    if items == [] then multiset{} else multiset{items[0].entry} + Bag(items[1..])
  }

  lemma {:induction false} BagJoin(a: seq<Item>, b: seq<Item>)
    ensures Bag(a + b) == Bag(a) + Bag(b)
  {
    if a == [] {
      assert a + b == b;
    } else {
      assert (a + b)[1..] == a[1..] + b;
      BagJoin(a[1..], b);
    }
  }

  /** The part of a dispatch behind the first item. */
  ghost function Behind(items: seq<Item>, behave: Handler -> Behaviour): Outcome
    requires items != []
  {
    if !items[0].deleted && Continues(items[0], behave) then Outcome([], true, items[1..], [])
    else Dispatched(items[1..], behave)
  }

  lemma FirstItem(items: seq<Item>, behave: Handler -> Behaviour)
    requires items != []
    ensures Dispatched(items, behave).left == Kept(items[0], behave) + Behind(items, behave).left
    ensures Dispatched(items, behave).freed == Gone(items[0], behave) + Behind(items, behave).freed
  {
  }

  lemma KeptOrGone(item: Item, behave: Handler -> Behaviour)
    ensures Bag(Kept(item, behave)) + multiset(Gone(item, behave)) == multiset{item.entry}
  {
    assert Bag([]) == multiset{};
  }

  /** Entries are neither lost nor duplicated: each one stays in the list or is freed, once. */
  lemma {:induction false} NothingLost(items: seq<Item>, behave: Handler -> Behaviour)
    ensures Bag(Dispatched(items, behave).left) + multiset(Dispatched(items, behave).freed) == Bag(items)
  {
    if items != [] {
      NothingLost(items[1..], behave);
      hide Dispatched, Kept, Gone;
      FirstItem(items, behave);
      KeptOrGone(items[0], behave);
      BagJoin(Kept(items[0], behave), Behind(items, behave).left);
    }
  }

  /** Handlers that leave the list alone find it exactly as it was. */
  lemma {:induction false} PassiveDispatch(items: seq<Item>, behave: Handler -> Behaviour)
    requires forall i :: 0 <= i < |items| ==> items[i].references > 0 && !behave(items[i].handler).removesItself
    ensures Dispatched(items, behave).left == items && Dispatched(items, behave).freed == []
  {
    if items != [] {
      PassiveDispatch(items[1..], behave);
      assert items == [items[0]] + items[1..];
    }
  }

  /** The call ends a registration nobody else keeps alive. */
  predicate TakesLastShare(item: Item, behave: Handler -> Behaviour) {
    item.references == 1 && behave(item.handler).removesItself
  }

  /** An entry is freed by the dispatch exactly when it is called, removes itself and nothing else holds it. */
  lemma {:induction false} FreedMeansLastShare(items: seq<Item>, behave: Handler -> Behaviour, e: Entry)
    requires forall i :: 0 <= i < |items| ==> items[i].references > 0
    ensures var out, live := Dispatched(items, behave), Live(items);
      |out.calls| <= |live| &&
      (e in out.freed <==>
        exists item :: item in live[..|out.calls|] && item.entry == e && TakesLastShare(item, behave))
  {
    CallsThePrefix(items, behave);
    if items != [] {
      FreedMeansLastShare(items[1..], behave, e);
      if !items[0].deleted {
        var out, live, tail := Dispatched(items, behave), Live(items), Live(items[1..]);
        var more := if Continues(items[0], behave) then Outcome([], true, items[1..], [])
          else Dispatched(items[1..], behave);
        assert live == [items[0]] + tail && out.calls == [items[0].entry] + more.calls;
        assert live[..|out.calls|] == [items[0]] + tail[..|more.calls|];
        assert e in out.freed <==> (e == items[0].entry && TakesLastShare(items[0], behave)) || e in more.freed;
      }
    }
  }

  /** The hooked dispatcher: handlers first, then whatever the original dispatcher says. */
  method DispatchException(list: HandlerList, behave: Handler -> Behaviour, original: bool) returns (result: bool)
    requires list.Valid()
    modifies list`entries, list.Nodes()`flink, list.Nodes()`blink, list.Nodes()`references, list.Nodes()`deleted
    ensures list.Valid()
    ensures list.Items() == Dispatched(old(list.Items()), behave).left
    ensures result == ((exists item :: item in Live(old(list.Items())) && Continues(item, behave)) || original)
  {
    ghost var items := list.Items();
    var handled, out := list.CallVectoredHandlers(behave);
    CallsThePrefix(items, behave);
    if handled { return true; }
    result := original;
  }
}
