/** Stack roots: each `Rooted` links itself into its kind's list and unlinks itself at the end of its scope. */
module Rooting {
  import opened Slots

  /** A root of some kind coming into scope or going out of it. */
  datatype Event = Entered(kind: nat) | Left(kind: nat)

  /** The per-context heads, one list for each kind of GC thing. */
  class RootLists<T> {
    const heads: array<Rooted?<T>>
    /** The roots in scope, oldest first. */
    ghost var live: seq<Rooted<T>>
    /** What has happened so far. */
    ghost var log: seq<Event>

    constructor (kinds: nat)
      ensures Valid() && live == [] && log == [] && heads.Length == kinds && fresh(heads)
    {
      heads := new Rooted?<T>[kinds](_ => null);
      live := [];
      log := [];
    }

    ghost predicate Valid()
      reads this, heads, live
    {
      && (forall i :: 0 <= i < |live| ==> live[i].stack == this && live[i].kind < heads.Length)
      && (forall i, j :: 0 <= i < j < |live| ==> live[i] != live[j])
      && ListsOf(heads[..], live)
    }
  }

  /** The roots of one kind, newest first. */
  ghost function OfKind<T>(live: seq<Rooted<T>>, k: nat): (r: seq<Rooted<T>>)
    ensures forall i :: 0 <= i < |r| ==> r[i] in live && r[i].kind == k
    ensures forall i :: 0 <= i < |live| && live[i].kind == k ==> live[i] in r
  {
    if live == [] then []
    else
      var last := live[|live| - 1];
      assert live == live[..|live| - 1] + [last];
      (if last.kind == k then [last] else []) + OfKind(live[..|live| - 1], k)
  }

  /** Following `prev` from `head` visits exactly `roots`. */
  ghost predicate Chain<T>(head: Rooted?<T>, roots: seq<Rooted<T>>) {
    if roots == [] then head == null else head == roots[0] && Chain(roots[0].prev, roots[1..])
  }

  /** Each kind's list is exactly the live roots of that kind, newest first. */
  ghost predicate ListsOf<T>(heads: seq<Rooted?<T>>, live: seq<Rooted<T>>) {
    forall k :: 0 <= k < |heads| ==> Chain(heads[k], OfKind(live, k))
  }

  /** Entering a scope puts its root in front of its kind's list and leaves the other lists alone. */
  lemma EnterLists<T>(live: seq<Rooted<T>>, r: Rooted<T>, k: nat)
    ensures OfKind(live + [r], k) == if r.kind == k then [r] + OfKind(live, k) else OfKind(live, k)
  {
    assert (live + [r])[..|live|] == live;
  }

  /** The newest live root of a kind heads that kind's list, and the rest of the list hangs off its `prev`. */
  lemma NewestFirst<T>(head: Rooted?<T>, live: seq<Rooted<T>>)
    requires live != [] && Chain(head, OfKind(live, live[|live| - 1].kind))
    ensures head == live[|live| - 1]
    ensures Chain(live[|live| - 1].prev, OfKind(live[..|live| - 1], live[|live| - 1].kind))
  {
    var r, before := live[|live| - 1], live[..|live| - 1];
    assert live == before + [r];
    EnterLists(before, r, r.kind);
    assert ([r] + OfKind(before, r.kind))[1..] == OfKind(before, r.kind);
  }

  lemma EnterKeeps<T>(heads: seq<Rooted?<T>>, live: seq<Rooted<T>>, r: Rooted<T>)
    requires ListsOf(heads, live) && r.kind < |heads| && r.prev == heads[r.kind]
    ensures ListsOf(heads[r.kind := r], live + [r])
  {
    hide Chain, OfKind;
    PushChain(r, OfKind(live, r.kind));
    forall k | 0 <= k < |heads| ensures Chain(heads[r.kind := r][k], OfKind(live + [r], k)) {
      EnterLists(live, r, k);
    }
  }

  lemma LeaveKeeps<T>(heads: seq<Rooted?<T>>, live: seq<Rooted<T>>, r: Rooted<T>)
    requires ListsOf(heads, live + [r]) && r.kind < |heads|
    ensures heads[r.kind] == r
    ensures ListsOf(heads[r.kind := r.prev], live)
  {
    hide Chain, OfKind;
    NewestFirst(heads[r.kind], live + [r]);
    assert (live + [r])[..|live|] == live;
    forall k | 0 <= k < |heads| ensures Chain(heads[r.kind := r.prev][k], OfKind(live, k)) {
      EnterLists(live, r, k);
    }
  }

  lemma PushChain<T>(r: Rooted<T>, roots: seq<Rooted<T>>)
    requires Chain(r.prev, roots)
    ensures Chain(r, [r] + roots)
  {
    assert ([r] + roots)[1..] == roots;
  }

  class Rooted<T> {
    const stack: RootLists<T>
    const kind: nat
    const prev: Rooted?<T>
    var ptr: T

    /** `init`: become the head of the kind's list. */
    constructor (stack: RootLists<T>, kind: nat, initial: T)
      requires stack.Valid() && kind < stack.heads.Length
      modifies stack, stack.heads
      ensures stack.Valid() && stack.live == old(stack.live) + [this]
      ensures stack.log == old(stack.log) + [Entered(kind)]
      ensures this.stack == stack && this.kind == kind && ptr == initial
      ensures stack.heads[kind] == this && prev == old(stack.heads[kind])
      ensures forall k :: 0 <= k < stack.heads.Length && k != kind ==> stack.heads[k] == old(stack.heads[k])
    {
      this.stack := stack;
      this.kind := kind;
      prev := stack.heads[kind];
      ptr := initial;
      new;
      hide ListsOf;
      ghost var before, heads := stack.live, stack.heads[..];
      EnterKeeps(heads, before, this);
      stack.heads[kind] := this;
      stack.live := before + [this];
      stack.log := stack.log + [Entered(kind)];
      assert stack.heads[..] == heads[kind := this];
    }

    /** The destructor, at the end of the newest live root's scope. */
    method Destroy()
      requires stack.Valid() && stack.live != [] && stack.live[|stack.live| - 1] == this
      modifies stack, stack.heads
      ensures stack.Valid() && stack.live == old(stack.live[..|stack.live| - 1])
      ensures stack.log == old(stack.log) + [Left(kind)]
      ensures old(stack.heads[kind]) == this && stack.heads[kind] == prev
      ensures forall k :: 0 <= k < stack.heads.Length && k != kind ==> stack.heads[k] == old(stack.heads[k])
    {
      hide ListsOf;
      ghost var after, heads := stack.live[..|stack.live| - 1], stack.heads[..];
      assert stack.live == after + [this];
      LeaveKeeps(heads, after, this);
      assert stack.heads[kind] == this;
      stack.heads[kind] := prev;
      stack.live := after;
      stack.log := stack.log + [Left(kind)];
      assert stack.heads[..] == heads[kind := prev];
    }
  }

  /** A scope holding one root of a kind, and the scopes opened inside it in turn. */
  datatype Scope = Scope(kind: nat, inner: seq<Scope>)

  predicate KindsBelow(s: Scope, kinds: nat) {
    s.kind < kinds && forall t :: t in s.inner ==> KindsBelow(t, kinds)
  }

  /** What happens from the beginning of a scope to its end. */
  ghost function Trace(s: Scope): seq<Event>
    decreases s
  {
    [Entered(s.kind)] + TraceTo(s, |s.inner|) + [Left(s.kind)]
  }

  /** What happens in the first `n` scopes inside a scope. */
  ghost function TraceTo(s: Scope, n: nat): seq<Event>
    requires n <= |s.inner|
    decreases s, 0, n
  {
    if n == 0 then [] else TraceTo(s, n - 1) + Trace(s.inner[n - 1])
  }

  /** The kinds in scope, oldest first, after `events`; every root that leaves must be the newest. */
  ghost function Replay(kinds: seq<nat>, events: seq<Event>): (r: Option<seq<nat>>)
    decreases |events|
  {
    if events == [] then Some(kinds)
    else
      match events[0]
      case Entered(k) => Replay(kinds + [k], events[1..])
      case Left(k) =>
        if kinds != [] && kinds[|kinds| - 1] == k then Replay(kinds[..|kinds| - 1], events[1..]) else None
  }

  lemma {:induction false} ReplayThen(kinds: seq<nat>, a: seq<Event>, b: seq<Event>)
    ensures Replay(kinds, a + b) == match Replay(kinds, a) case Some(r) => Replay(r, b) case None => None
    decreases |a|
  {
    if a == [] {
      assert a + b == b;
    } else {
      assert (a + b)[0] == a[0] && (a + b)[1..] == a[1..] + b;
      match a[0] {
        case Entered(k) => ReplayThen(kinds + [k], a[1..], b);
        case Left(k) =>
          if kinds != [] {
            ReplayThen(kinds[..|kinds| - 1], a[1..], b);
          }
      }
    }
  }

  /** Scopes are left in the opposite order, and what was in scope before is in scope again. */
  lemma {:induction false} TraceIsNested(kinds: seq<nat>, s: Scope)
    ensures Replay(kinds, Trace(s)) == Some(kinds)
    decreases s
  {
    var inside := kinds + [s.kind];
    InnerIsNested(inside, s, |s.inner|);
    ReplayThen(kinds, [Entered(s.kind)], TraceTo(s, |s.inner|));
    ReplayThen(kinds, [Entered(s.kind)] + TraceTo(s, |s.inner|), [Left(s.kind)]);
    assert inside[..|inside| - 1] == kinds;
  }

  lemma {:induction false} InnerIsNested(kinds: seq<nat>, s: Scope, n: nat)
    requires n <= |s.inner|
    ensures Replay(kinds, TraceTo(s, n)) == Some(kinds)
    decreases s, 0, n
  {
    if n > 0 {
      InnerIsNested(kinds, s, n - 1);
      TraceIsNested(kinds, s.inner[n - 1]);
      ReplayThen(kinds, TraceTo(s, n - 1), Trace(s.inner[n - 1]));
    }
  }

  /**
   * However scopes nest, leaving one restores every list, and every destructor finds itself at the
   * head of its list.
   */
  method Execute<T>(lists: RootLists<T>, s: Scope, initial: T)
    requires lists.Valid() && KindsBelow(s, lists.heads.Length)
    modifies lists, lists.heads
    ensures lists.Valid() && lists.live == old(lists.live)
    ensures lists.log == old(lists.log) + Trace(s)
    ensures lists.heads[..] == old(lists.heads[..])
    decreases s
  {
    hide ListsOf, Chain, OfKind;
    var r := new Rooted(lists, s.kind, initial);
    ghost var during := lists.heads[..];
    ghost var live := lists.live;
    var i := 0;
    while i < |s.inner|
      invariant i <= |s.inner| && lists.Valid() && lists.live == live && lists.heads[..] == during
      invariant lists.log == old(lists.log) + ([Entered(s.kind)] + TraceTo(s, i))
    {
      Execute(lists, s.inner[i], initial);
      i := i + 1;
    }
    assert lists.heads[s.kind] == during[s.kind];
    r.Destroy();
    assert lists.heads[..] == old(lists.heads[..]);
  }
}
