/**
 * The feature resolver of an instance before it is started (core/xray.go). A callback waits until
 * features of all the types it names are registered; when it runs it may register features and
 * further callbacks itself. A feature is its type tag.
 */
module Resolver {

  type Tag = nat

  /** What the code around the instance, or a callback, asks of it. */
  datatype Action =
    | Require(callback: Callback, optional: bool)
    | Add(tag: Tag)

  /** A callback: the types of its parameters and what it does when it runs. */
  datatype Callback = Callback(deps: seq<Tag>, body: seq<Action>)

  /** What becomes of a request: a feature is there, a callback has run, or it is left waiting. */
  datatype Event = Added(tag: Tag) | Ran(callback: Callback) | Left(callback: Callback, optional: bool)

  predicate Satisfied(features: set<Tag>, c: Callback) {
    forall i :: 0 <= i < |c.deps| ==> c.deps[i] in features
  }

  // ---------------------------------------------------------------------------------------------
  // What should happen, if in the end exactly the features g are registered
  // ---------------------------------------------------------------------------------------------

  function Effect(g: set<Tag>, acts: seq<Action>): multiset<Event>
    decreases acts
  {
    if acts == [] then multiset{} else EffectOf(g, acts[0]) + Effect(g, acts[1..])
  }

  function EffectOf(g: set<Tag>, a: Action): multiset<Event>
    decreases a
  {
    match a
    case Add(t) => multiset{Added(t)}
    case Require(c, optional) => Fate(g, c, optional)
  }

  function Fate(g: set<Tag>, c: Callback, optional: bool): multiset<Event>
    decreases c
  {
    if Satisfied(g, c) then multiset{Ran(c)} + Effect(g, c.body) else multiset{Left(c, optional)}
  }

  /** The fate of everything in a list of waiting callbacks. */
  function Fates(g: set<Tag>, waiting: seq<Callback>, optional: bool): multiset<Event> {
    if waiting == [] then multiset{} else Fate(g, waiting[0], optional) + Fates(g, waiting[1..], optional)
  }

  /** Nothing that may happen within g leads out of g. */
  predicate Inside(g: set<Tag>, acts: seq<Action>)
    decreases acts
  {
    acts == [] || (InsideOf(g, acts[0]) && Inside(g, acts[1..]))
  }

  predicate InsideOf(g: set<Tag>, a: Action)
    decreases a
  {
    match a
    case Add(t) => t in g
    case Require(c, _) => Stays(g, c)
  }

  predicate Stays(g: set<Tag>, c: Callback)
    decreases c
  {
    Satisfied(g, c) ==> Inside(g, c.body)
  }

  predicate AllStay(g: set<Tag>, waiting: seq<Callback>) {
    forall i :: 0 <= i < |waiting| ==> Stays(g, waiting[i])
  }

  // ---------------------------------------------------------------------------------------------
  // Size, for termination
  // ---------------------------------------------------------------------------------------------

  function Size(c: Callback): nat
    decreases c
  {
    1 + SizeOf(c.body)
  }

  function SizeOf(acts: seq<Action>): nat
    decreases acts
  {
    if acts == [] then 0 else SizeOfOne(acts[0]) + SizeOf(acts[1..])
  }

  function SizeOfOne(a: Action): (n: nat)
    ensures n > 0
    decreases a
  {
    match a
    case Add(_) => 1
    case Require(c, _) => 1 + Size(c)
  }

  function Sizes(cs: seq<Callback>): nat {
    if cs == [] then 0 else Size(cs[0]) + Sizes(cs[1..])
  }

  lemma {:induction false} SizesSnoc(cs: seq<Callback>, c: Callback)
    ensures Sizes(cs + [c]) == Sizes(cs) + Size(c)
  {
    if cs == [] {
      assert cs + [c] == [c] && [c][1..] == [];
    } else {
      assert (cs + [c])[0] == cs[0] && (cs + [c])[1..] == cs[1..] + [c];
      SizesSnoc(cs[1..], c);
    }
  }

  lemma {:induction false} FatesSnoc(g: set<Tag>, cs: seq<Callback>, c: Callback, optional: bool)
    ensures Fates(g, cs + [c], optional) == Fates(g, cs, optional) + Fate(g, c, optional)
  {
    if cs == [] {
      assert cs + [c] == [c] && [c][1..] == [];
    } else {
      assert (cs + [c])[0] == cs[0] && (cs + [c])[1..] == cs[1..] + [c];
      FatesSnoc(g, cs[1..], c, optional);
    }
  }

  /** A satisfied callback runs whether it was required or optional. */
  lemma FateSatisfied(g: set<Tag>, c: Callback, o: bool, p: bool)
    requires Satisfied(g, c)
    ensures Fate(g, c, o) == Fate(g, c, p)
  {
  }

  lemma {:induction false} EffectSnoc(g: set<Tag>, acts: seq<Action>, a: Action)
    ensures Effect(g, acts + [a]) == Effect(g, acts) + EffectOf(g, a)
    ensures Inside(g, acts + [a]) <==> Inside(g, acts) && InsideOf(g, a)
    ensures SizeOf(acts + [a]) == SizeOf(acts) + SizeOfOne(a)
  {
    if acts == [] {
      assert acts + [a] == [a] && [a][1..] == [];
    } else {
      assert (acts + [a])[0] == acts[0] && (acts + [a])[1..] == acts[1..] + [a];
      EffectSnoc(g, acts[1..], a);
    }
  }

  lemma Single(g: set<Tag>, a: Action)
    ensures Effect(g, [a]) == EffectOf(g, a)
    ensures Inside(g, [a]) <==> InsideOf(g, a)
    ensures SizeOf([a]) == SizeOfOne(a)
  {
    assert [a][1..] == [];
  }

  // ---------------------------------------------------------------------------------------------
  // The state of an instance
  // ---------------------------------------------------------------------------------------------

  function TagsOf(features: seq<Tag>): set<Tag> {
    set t | t in features
  }

  /** features, pendingResolutions, pendingOptionalResolutions, and a log of what has happened. */
  datatype St = St(features: seq<Tag>, pending: seq<Callback>, optional: seq<Callback>, log: multiset<Event>) {
    function Tags(): set<Tag> {
      TagsOf(features)
    }

    /** No callback that could run is kept waiting. */
    predicate Quiet() {
      && (forall i :: 0 <= i < |pending| ==> !Satisfied(Tags(), pending[i]))
      && (forall i :: 0 <= i < |optional| ==> !Satisfied(Tags(), optional[i]))
    }

    /** The log says Added(t) of the registered features t and of no others, and never Left. */
    ghost predicate Faithful() {
      && (forall t :: t in features <==> Added(t) in log)
      && (forall c, o :: Left(c, o) !in log)
    }

    function Load(): nat {
      Sizes(pending) + Sizes(optional)
    }

    /** What has happened and what will, if the features end up as g. */
    function Account(g: set<Tag>): multiset<Event> {
      log + Fates(g, pending, false) + Fates(g, optional, true)
    }

    /** Nothing that waits leads out of g. */
    predicate Holds(g: set<Tag>) {
      AllStay(g, pending) && AllStay(g, optional)
    }
  }

  const FRESH := St([], [], [], multiset{})

  /** The law for one g: nothing happens that g does not foresee, and nothing else. */
  ghost predicate Accounts(a: St, b: St, e: multiset<Event>, g: set<Tag>) {
    b.Tags() <= g ==> b.Account(g) == a.Account(g) + e
  }

  /** If a, and what is done, stay inside g, so does b. */
  ghost predicate Confined(a: St, b: St, inside: bool, g: set<Tag>) {
    a.Tags() <= g && a.Holds(g) && inside ==> b.Tags() <= g && b.Holds(g)
  }

  /** From a to b the actions acts have been carried out, with everything they set off. */
  ghost predicate Does(a: St, b: St, acts: seq<Action>) {
    && b.Quiet() && a.Tags() <= b.Tags() && (a.Faithful() ==> b.Faithful())
    && b.Load() <= a.Load() + SizeOf(acts)
    && (forall g: set<Tag> :: Accounts(a, b, Effect(g, acts), g))
    && (forall g: set<Tag> :: Confined(a, b, Inside(g, acts), g))
  }

  lemma DoesNothing(a: St)
    requires a.Quiet()
    ensures Does(a, a, [])
  {
  }

  lemma DoesOneMore(a: St, b: St, c: St, acts: seq<Action>, x: Action)
    requires Does(a, b, acts) && Does(b, c, [x])
    ensures Does(a, c, acts + [x])
  {
    EffectSnoc({}, acts, x);
    Single({}, x);
    forall g: set<Tag> ensures Accounts(a, c, Effect(g, acts + [x]), g) {
      EffectSnoc(g, acts, x);
      Single(g, x);
      assert Accounts(a, b, Effect(g, acts), g) && Accounts(b, c, Effect(g, [x]), g);
    }
    forall g: set<Tag> ensures Confined(a, c, Inside(g, acts + [x]), g) {
      EffectSnoc(g, acts, x);
      Single(g, x);
      assert Confined(a, b, Inside(g, acts), g) && Confined(b, c, Inside(g, [x]), g);
    }
  }

  // ---------------------------------------------------------------------------------------------
  // RequireFeatures
  // ---------------------------------------------------------------------------------------------

  /** A callback that can run has run. */
  lemma RequireRan(a: St, b: St, c: Callback, optional: bool)
    requires a.Quiet() && Satisfied(a.Tags(), c)
    requires Does(a.(log := a.log + multiset{Ran(c)}), b, c.body)
    ensures Does(a, b, [Require(c, optional)])
  {
    var x := Require(c, optional);
    var mid := a.(log := a.log + multiset{Ran(c)});
    Single({}, x);
    forall g: set<Tag> ensures Accounts(a, b, Effect(g, [x]), g) {
      Single(g, x);
      assert Accounts(mid, b, Effect(g, c.body), g);
      if b.Tags() <= g {
        assert Satisfied(g, c);
      }
    }
    forall g: set<Tag> ensures Confined(a, b, Inside(g, [x]), g) {
      Single(g, x);
      assert Confined(mid, b, Inside(g, c.body), g);
      if a.Tags() <= g {
        assert Satisfied(g, c);
      }
    }
  }

  /** The state in which c, which cannot run, waits. */
  function Waiting(a: St, c: Callback, optional: bool): St {
    if optional then a.(optional := a.optional + [c]) else a.(pending := a.pending + [c])
  }

  lemma WaitingAccounts(a: St, c: Callback, optional: bool, g: set<Tag>)
    ensures Waiting(a, c, optional).Account(g) == a.Account(g) + Fate(g, c, optional)
  {
    if optional {
      FatesSnoc(g, a.optional, c, true);
    } else {
      FatesSnoc(g, a.pending, c, false);
    }
  }

  lemma WaitingQuiet(a: St, c: Callback, optional: bool)
    requires a.Quiet() && !Satisfied(a.Tags(), c)
    ensures Waiting(a, c, optional).Quiet()
    ensures Waiting(a, c, optional).Tags() == a.Tags()
    ensures Waiting(a, c, optional).Load() == a.Load() + Size(c)
  {
    SizesSnoc(a.optional, c);
    SizesSnoc(a.pending, c);
  }

  lemma WaitingHolds(a: St, c: Callback, optional: bool, g: set<Tag>)
    requires a.Holds(g) && Stays(g, c)
    ensures Waiting(a, c, optional).Holds(g)
  {
  }

  /** A callback that cannot run waits. */
  lemma RequireWaits(a: St, b: St, c: Callback, optional: bool)
    requires a.Quiet() && !Satisfied(a.Tags(), c)
    requires b == Waiting(a, c, optional)
    ensures Does(a, b, [Require(c, optional)])
  {
    var x := Require(c, optional);
    WaitingQuiet(a, c, optional);
    Single({}, x);
    forall g: set<Tag> ensures Accounts(a, b, Effect(g, [x]), g) {
      Single(g, x);
      WaitingAccounts(a, c, optional, g);
    }
    forall g: set<Tag> ensures Confined(a, b, Inside(g, [x]), g) {
      Single(g, x);
      if a.Holds(g) && Stays(g, c) {
        WaitingHolds(a, c, optional, g);
      }
    }
  }

  // ---------------------------------------------------------------------------------------------
  // AddFeature
  // ---------------------------------------------------------------------------------------------

  /** While the callbacks `rest` are still to be run on behalf of the new feature t. */
  ghost predicate Underway(a: St, b: St, t: Tag, rest: seq<Callback>) {
    && b.Quiet() && a.Tags() <= b.Tags() && (a.Faithful() ==> b.Faithful())
    && (forall i :: 0 <= i < |rest| ==> Satisfied(b.Tags(), rest[i]))
    && b.Load() + Sizes(rest) <= a.Load()
    && (forall g: set<Tag> :: Owes(a, b, t, rest, g))
    && (forall g: set<Tag> :: Keeps(a, b, t, rest, g))
  }

  ghost predicate Owes(a: St, b: St, t: Tag, rest: seq<Callback>, g: set<Tag>) {
    b.Tags() <= g ==> b.Account(g) + Fates(g, rest, false) == a.Account(g) + multiset{Added(t)}
  }

  ghost predicate Keeps(a: St, b: St, t: Tag, rest: seq<Callback>, g: set<Tag>) {
    a.Tags() <= g && a.Holds(g) && t in g ==> b.Tags() <= g && b.Holds(g) && AllStay(g, rest)
  }

  lemma OwesStep(a: St, b: St, c: St, t: Tag, rest: seq<Callback>, g: set<Tag>)
    requires rest != [] && Owes(a, b, t, rest, g) && b.Tags() <= c.Tags()
    requires Satisfied(b.Tags(), rest[0])
    requires Accounts(b.(log := b.log + multiset{Ran(rest[0])}), c, Effect(g, rest[0].body), g)
    ensures Owes(a, c, t, rest[1..], g)
  {
    var r := rest[0];
    if c.Tags() <= g {
      assert Satisfied(g, r);
      assert Fates(g, rest, false) == Fate(g, r, false) + Fates(g, rest[1..], false);
    }
  }

  lemma KeepsStep(a: St, b: St, c: St, t: Tag, rest: seq<Callback>, g: set<Tag>)
    requires rest != [] && Keeps(a, b, t, rest, g)
    requires Satisfied(b.Tags(), rest[0])
    requires Confined(b.(log := b.log + multiset{Ran(rest[0])}), c, Inside(g, rest[0].body), g)
    ensures Keeps(a, c, t, rest[1..], g)
  {
    if a.Tags() <= g && a.Holds(g) && t in g {
      assert Stays(g, rest[0]) && Satisfied(g, rest[0]);
    }
  }

  /** One of them has been run. */
  lemma UnderwayStep(a: St, b: St, c: St, t: Tag, rest: seq<Callback>)
    requires rest != [] && Underway(a, b, t, rest)
    requires Does(b.(log := b.log + multiset{Ran(rest[0])}), c, rest[0].body)
    ensures Underway(a, c, t, rest[1..])
  {
    forall g: set<Tag> ensures Owes(a, c, t, rest[1..], g) {
      assert Owes(a, b, t, rest, g);
      assert Accounts(b.(log := b.log + multiset{Ran(rest[0])}), c, Effect(g, rest[0].body), g);
      OwesStep(a, b, c, t, rest, g);
    }
    forall g: set<Tag> ensures Keeps(a, c, t, rest[1..], g) {
      assert Keeps(a, b, t, rest, g);
      assert Confined(b.(log := b.log + multiset{Ran(rest[0])}), c, Inside(g, rest[0].body), g);
      KeepsStep(a, b, c, t, rest, g);
    }
  }

  lemma UnderwayDone(a: St, b: St, t: Tag)
    requires Underway(a, b, t, [])
    ensures Does(a, b, [Add(t)])
  {
    Single({}, Add(t));
    forall g: set<Tag> ensures Accounts(a, b, Effect(g, [Add(t)]), g) {
      Single(g, Add(t));
      assert Owes(a, b, t, [], g);
    }
    forall g: set<Tag> ensures Confined(a, b, Inside(g, [Add(t)]), g) {
      Single(g, Add(t));
      assert Keeps(a, b, t, [], g);
    }
  }

  /** The split of a list into the callbacks that can run now and those that still wait. */
  ghost predicate IsSplit(features: set<Tag>, all: seq<Callback>, ready: seq<Callback>, wait: seq<Callback>) {
    && Sizes(all) == Sizes(ready) + Sizes(wait)
    && (forall i :: 0 <= i < |ready| ==> Satisfied(features, ready[i]))
    && (forall i :: 0 <= i < |wait| ==> !Satisfied(features, wait[i]))
    && (forall g: set<Tag>, o: bool :: SplitsAs(g, o, all, ready, wait))
  }

  ghost predicate SplitsAs(g: set<Tag>, o: bool, all: seq<Callback>, ready: seq<Callback>, wait: seq<Callback>) {
    && Fates(g, all, o) == Fates(g, ready, o) + Fates(g, wait, o)
    && (AllStay(g, all) ==> AllStay(g, ready) && AllStay(g, wait))
  }

  lemma SplitsSnoc(g: set<Tag>, o: bool, all: seq<Callback>, ready: seq<Callback>, wait: seq<Callback>, c: Callback)
    requires SplitsAs(g, o, all, ready, wait)
    ensures SplitsAs(g, o, all + [c], ready + [c], wait)
    ensures SplitsAs(g, o, all + [c], ready, wait + [c])
  {
    FatesSnoc(g, all, c, o);
    FatesSnoc(g, ready, c, o);
    FatesSnoc(g, wait, c, o);
    AllStaySnoc(g, all, c);
    AllStaySnoc(g, ready, c);
    AllStaySnoc(g, wait, c);
  }

  lemma SplitReady(features: set<Tag>, all: seq<Callback>, ready: seq<Callback>, wait: seq<Callback>, c: Callback)
    requires IsSplit(features, all, ready, wait) && Satisfied(features, c)
    ensures IsSplit(features, all + [c], ready + [c], wait)
  {
    SizesSnoc(all, c);
    SizesSnoc(ready, c);
    forall g: set<Tag>, o: bool ensures SplitsAs(g, o, all + [c], ready + [c], wait) {
      SplitsSnoc(g, o, all, ready, wait, c);
    }
  }

  lemma SplitWait(features: set<Tag>, all: seq<Callback>, ready: seq<Callback>, wait: seq<Callback>, c: Callback)
    requires IsSplit(features, all, ready, wait) && !Satisfied(features, c)
    ensures IsSplit(features, all + [c], ready, wait + [c])
  {
    SizesSnoc(all, c);
    SizesSnoc(wait, c);
    forall g: set<Tag>, o: bool ensures SplitsAs(g, o, all + [c], ready, wait + [c]) {
      SplitsSnoc(g, o, all, ready, wait, c);
    }
  }

  lemma AllStaySnoc(g: set<Tag>, cs: seq<Callback>, c: Callback)
    ensures AllStay(g, cs + [c]) <==> AllStay(g, cs) && Stays(g, c)
  {
    if AllStay(g, cs + [c]) {
      forall i | 0 <= i < |cs| ensures Stays(g, cs[i]) {
        assert (cs + [c])[i] == cs[i];
      }
      assert (cs + [c])[|cs|] == c;
    }
  }

  lemma {:induction false} FatesConcat(g: set<Tag>, x: seq<Callback>, y: seq<Callback>, o: bool)
    ensures Fates(g, x + y, o) == Fates(g, x, o) + Fates(g, y, o)
    ensures Sizes(x + y) == Sizes(x) + Sizes(y)
  {
    if x == [] {
      assert x + y == y;
    } else {
      assert (x + y)[0] == x[0] && (x + y)[1..] == x[1..] + y;
      FatesConcat(g, x[1..], y, o);
    }
  }

  lemma {:induction false} FatesSatisfied(g: set<Tag>, cs: seq<Callback>)
    requires forall i :: 0 <= i < |cs| ==> Satisfied(g, cs[i])
    ensures Fates(g, cs, true) == Fates(g, cs, false)
  {
    if cs != [] {
      FateSatisfied(g, cs[0], true, false);
      FatesSatisfied(g, cs[1..]);
    }
  }

  /** Once the feature t is registered and the two lists are split. */
  lemma UnderwayStart(a: St, b: St, t: Tag, ready1: seq<Callback>, ready2: seq<Callback>)
    requires b.features == a.features + [t] && b.log == a.log + multiset{Added(t)}
    requires IsSplit(b.Tags(), a.pending, ready1, b.pending)
    requires IsSplit(b.Tags(), a.optional, ready2, b.optional)
    ensures Underway(a, b, t, ready1 + ready2)
  {
    var rest := ready1 + ready2;
    FatesConcat({}, ready1, ready2, false);
    StartFaithful(a, b, t);
    forall g: set<Tag> ensures Owes(a, b, t, rest, g) {
      if b.Tags() <= g {
        StartOwes(a, b, t, ready1, ready2, g);
      }
    }
    forall g: set<Tag> ensures Keeps(a, b, t, rest, g) {
      assert SplitsAs(g, false, a.pending, ready1, b.pending) && SplitsAs(g, false, a.optional, ready2, b.optional);
    }
  }

  lemma StartFaithful(a: St, b: St, t: Tag)
    requires b.features == a.features + [t] && b.log == a.log + multiset{Added(t)}
    ensures a.Tags() <= b.Tags()
    ensures a.Faithful() ==> b.Faithful()
  {
    if a.Faithful() {
      forall u ensures u in b.features <==> Added(u) in b.log {
        assert u in a.features <==> Added(u) in a.log;
      }
      forall c, o ensures Left(c, o) !in b.log {
        assert Left(c, o) !in a.log;
      }
    }
  }

  lemma StartOwes(a: St, b: St, t: Tag, ready1: seq<Callback>, ready2: seq<Callback>, g: set<Tag>)
    requires b.features == a.features + [t] && b.log == a.log + multiset{Added(t)} && b.Tags() <= g
    requires IsSplit(b.Tags(), a.pending, ready1, b.pending)
    requires IsSplit(b.Tags(), a.optional, ready2, b.optional)
    ensures b.Account(g) + Fates(g, ready1 + ready2, false) == a.Account(g) + multiset{Added(t)}
  {
    assert SplitsAs(g, false, a.pending, ready1, b.pending) && SplitsAs(g, true, a.optional, ready2, b.optional);
    FatesConcat(g, ready1, ready2, false);
    FatesSatisfied(g, ready2);
  }

  // ---------------------------------------------------------------------------------------------
  // The instance
  // ---------------------------------------------------------------------------------------------

  class Instance {
    var features: seq<Tag>
    var pendingResolutions: seq<Callback>
    var pendingOptionalResolutions: seq<Callback>
    ghost var log: multiset<Event>

    ghost function State(): St
      reads this
    {
      St(features, pendingResolutions, pendingOptionalResolutions, log)
    }

    constructor ()
      ensures State() == FRESH
    {
      features, pendingResolutions, pendingOptionalResolutions, log := [], [], [], multiset{};
    }

    static method GetFeature(all: seq<Tag>, t: Tag) returns (found: bool)
      ensures found <==> t in all
    {
      for i := 0 to |all|
        invariant t !in all[..i]
      {
        if all[i] == t {
          return true;
        }
      }
      return false;
    }

    static method FoundAll(all: seq<Tag>, c: Callback) returns (foundAll: bool)
      ensures foundAll <==> Satisfied(TagsOf(all), c)
    {
      for i := 0 to |c.deps|
        invariant forall k :: 0 <= k < i ==> c.deps[k] in all
      {
        var f := GetFeature(all, c.deps[i]);
        if !f {
          assert c.deps[i] !in all;
          return false;
        }
      }
      return true;
    }

    static method Split(all: seq<Tag>, cs: seq<Callback>) returns (available: seq<Callback>, pending: seq<Callback>)
      ensures IsSplit(TagsOf(all), cs, available, pending)
    {
      available, pending := [], [];
      ghost var tags := TagsOf(all);
      for i := 0 to |cs|
        invariant IsSplit(tags, cs[..i], available, pending)
      {
        assert cs[..i + 1] == cs[..i] + [cs[i]];
        var foundAll := FoundAll(all, cs[i]);
        if foundAll {
          SplitReady(tags, cs[..i], available, pending, cs[i]);
          available := available + [cs[i]];
        } else {
          SplitWait(tags, cs[..i], available, pending, cs[i]);
          pending := pending + [cs[i]];
        }
      }
      assert cs[..|cs|] == cs;
    }

    /** What the code around the instance, or a callback that runs, does with it. */
    method Perform(acts: seq<Action>)
      requires State().Quiet()
      modifies this
      ensures Does(old(State()), State(), acts)
      decreases State().Load() + SizeOf(acts), 0
    {
      ghost var was := State();
      DoesNothing(was);
      for i := 0 to |acts|
        invariant Does(was, State(), acts[..i])
      {
        ghost var mid := State();
        PrefixSize(acts, i);
        match acts[i] {
          case Add(t) => AddFeature(t);
          case Require(c, optional) => RequireFeatures(c, optional);
        }
        DoesOneMore(was, mid, State(), acts[..i], acts[i]);
        assert acts[..i + 1] == acts[..i] + [acts[i]];
      }
      assert acts[..|acts|] == acts;
    }

    /** Runs a callback, all of whose dependencies are there. */
    method Call(c: Callback)
      requires State().Quiet() && Satisfied(State().Tags(), c)
      modifies this
      ensures Does(old(State()).(log := old(log) + multiset{Ran(c)}), State(), c.body)
      decreases State().Load() + SizeOf(c.body), 1
    {
      log := log + multiset{Ran(c)};
      Perform(c.body);
    }

    method RequireFeatures(c: Callback, optional: bool)
      requires State().Quiet()
      modifies this
      ensures Does(old(State()), State(), [Require(c, optional)])
      decreases State().Load() + Size(c)
    {
      ghost var was := State();
      var foundAll := FoundAll(features, c);
      if foundAll {
        Call(c);
        RequireRan(was, State(), c, optional);
      } else {
        if optional {
          pendingOptionalResolutions := pendingOptionalResolutions + [c];
        } else {
          pendingResolutions := pendingResolutions + [c];
        }
        RequireWaits(was, State(), c, optional);
      }
    }

    method AddFeature(t: Tag)
      requires State().Quiet()
      modifies this
      ensures Does(old(State()), State(), [Add(t)])
      decreases State().Load()
    {
      ghost var was := State();
      features, log := features + [t], log + multiset{Added(t)};
      var available, pending := Split(features, pendingResolutions);
      pendingResolutions := pending;
      var more, pendingOptional := Split(features, pendingOptionalResolutions);
      pendingOptionalResolutions := pendingOptional;
      UnderwayStart(was, State(), t, available, more);
      available := available + more;
      for i := 0 to |available|
        invariant Underway(was, State(), t, available[i..])
      {
        ghost var mid := State();
        assert available[i..][0] == available[i] && available[i..][1..] == available[i + 1..];
        Call(available[i]);
        UnderwayStep(was, mid, State(), t, available[i..]);
      }
      assert available[|available|..] == [];
      UnderwayDone(was, State(), t);
    }
  }

  lemma {:induction false} PrefixSize(acts: seq<Action>, i: nat)
    requires i < |acts|
    ensures SizeOf(acts[..i]) + SizeOfOne(acts[i]) <= SizeOf(acts)
  {
    if i == 0 {
    } else {
      assert acts[..i][0] == acts[0] && acts[..i][1..] == acts[1..][..i - 1];
      PrefixSize(acts[1..], i - 1);
    }
  }

  // ---------------------------------------------------------------------------------------------
  // What a fresh instance ends up with
  // ---------------------------------------------------------------------------------------------

  lemma {:induction false} AddedInside(g: set<Tag>, acts: seq<Action>)
    requires forall t :: Added(t) in Effect(g, acts) ==> t in g
    ensures Inside(g, acts)
    decreases acts
  {
    if acts != [] {
      forall t | Added(t) in EffectOf(g, acts[0]) ensures t in g {
        assert Added(t) in Effect(g, acts);
      }
      AddedInsideOf(g, acts[0]);
      forall t | Added(t) in Effect(g, acts[1..]) ensures t in g {
        assert Added(t) in Effect(g, acts);
      }
      AddedInside(g, acts[1..]);
    }
  }

  lemma {:induction false} AddedInsideOf(g: set<Tag>, a: Action)
    requires forall t :: Added(t) in EffectOf(g, a) ==> t in g
    ensures InsideOf(g, a)
    decreases a
  {
    match a
    case Add(t) => assert Added(t) in EffectOf(g, a);
    case Require(c, optional) =>
      if Satisfied(g, c) {
        forall t | Added(t) in Effect(g, c.body) ensures t in g {
          assert Added(t) in EffectOf(g, a);
        }
        AddedInside(g, c.body);
      }
  }

  /** Of callbacks that cannot run, each is left as often as it is in the list, and nothing else happens. */
  lemma {:induction false} FatesUnsatisfied(g: set<Tag>, cs: seq<Callback>, o: bool, e: Event)
    requires forall i :: 0 <= i < |cs| ==> !Satisfied(g, cs[i])
    ensures Fates(g, cs, o)[e] == if e.Left? && e.optional == o then multiset(cs)[e.callback] else 0
  {
    if cs != [] {
      FatesUnsatisfied(g, cs[1..], o, e);
      assert cs == [cs[0]] + cs[1..];
    }
  }

  lemma EndsWith(s: St, acts: seq<Action>)
    requires Does(FRESH, s, acts)
    ensures s.Account(s.Tags()) == Effect(s.Tags(), acts)
    ensures s.Faithful()
  {
    var g := s.Tags();
    assert Accounts(FRESH, s, Effect(g, acts), g);
    assert FRESH.Account(g) == multiset{};
    assert FRESH.Faithful();
  }

  /** How often e happens when acts are carried out on a fresh instance: the log, then what is left waiting. */
  lemma Happens(s: St, acts: seq<Action>, e: Event)
    requires Does(FRESH, s, acts)
    ensures !e.Left? ==> Effect(s.Tags(), acts)[e] == s.log[e]
    ensures e.Left? ==> s.log[e] == 0
    ensures e.Left? && !e.optional ==> Effect(s.Tags(), acts)[e] == multiset(s.pending)[e.callback]
    ensures e.Left? && e.optional ==> Effect(s.Tags(), acts)[e] == multiset(s.optional)[e.callback]
  {
    var g := s.Tags();
    EndsWith(s, acts);
    FatesUnsatisfied(g, s.pending, false, e);
    FatesUnsatisfied(g, s.optional, true, e);
    if e.Left? {
      assert Left(e.callback, e.optional) !in s.log;
    }
  }

  /**
   * Whatever is asked of a fresh instance, the features it ends with are the least set that
   * contains every feature added by the code around it and by every callback whose needs are in
   * the set. Every request is accounted for exactly once: a callback has run if its needs are in
   * that set and waits otherwise. New fails with "not all dependencies are resolved" exactly when
   * a required callback has a need outside the set.
   */
  lemma ResolvesLeast(s: St, acts: seq<Action>)
    requires Does(FRESH, s, acts)
    ensures Inside(s.Tags(), acts)
    ensures forall g: set<Tag> :: Inside(g, acts) ==> s.Tags() <= g
    ensures s.pending != [] <==> exists c :: Left(c, false) in Effect(s.Tags(), acts)
  {
    var f := s.Tags();
    assert FRESH.Faithful();
    forall t | Added(t) in Effect(f, acts) ensures t in f {
      Happens(s, acts, Added(t));
    }
    AddedInside(f, acts);
    forall g: set<Tag> | Inside(g, acts) ensures f <= g {
      assert Confined(FRESH, s, Inside(g, acts), g);
    }
    if s.pending != [] {
      var c := s.pending[0];
      assert c in multiset(s.pending);
      Happens(s, acts, Left(c, false));
      assert Left(c, false) in Effect(f, acts);
    }
    forall c | Left(c, false) in Effect(f, acts) ensures s.pending != [] {
      Happens(s, acts, Left(c, false));
    }
  }

  /** The order of the requests does not matter to what they amount to. */
  lemma {:induction false} EffectPermuted(g: set<Tag>, x: seq<Action>, y: seq<Action>)
    requires multiset(x) == multiset(y)
    ensures Effect(g, x) == Effect(g, y) && Inside(g, x) == Inside(g, y)
    decreases |x|
  {
    if x == [] {
      assert |multiset(y)| == 0;
    } else {
      assert x[0] in multiset(y);
      var i :| 0 <= i < |y| && y[i] == x[0];
      EffectPick(g, y, i);
      PickPermuted(x, y, i);
      EffectPermuted(g, x[1..], y[..i] + y[i + 1..]);
    }
  }

  lemma PickPermuted(x: seq<Action>, y: seq<Action>, i: nat)
    requires x != [] && i < |y| && y[i] == x[0] && multiset(x) == multiset(y)
    ensures multiset(x[1..]) == multiset(y[..i] + y[i + 1..])
  {
    assert x == [x[0]] + x[1..];
    assert y == y[..i] + [y[i]] + y[i + 1..];
    assert multiset(x[1..]) == multiset(x) - multiset{x[0]};
    assert multiset(y[..i] + y[i + 1..]) == multiset(y) - multiset{y[i]};
  }

  lemma {:induction false} EffectPick(g: set<Tag>, y: seq<Action>, i: nat)
    requires i < |y|
    ensures Effect(g, y) == EffectOf(g, y[i]) + Effect(g, y[..i] + y[i + 1..])
    ensures Inside(g, y) <==> InsideOf(g, y[i]) && Inside(g, y[..i] + y[i + 1..])
  {
    if i == 0 {
      assert y[..0] + y[1..] == y[1..];
    } else {
      var z := y[1..];
      EffectPick(g, z, i - 1);
      var r := y[..i] + y[i + 1..];
      assert r[0] == y[0] && r[1..] == z[..i - 1] + z[i..];
    }
  }

  lemma SameTags(s: St, x: seq<Action>, t: St, y: seq<Action>)
    requires Does(FRESH, s, x) && Does(FRESH, t, y) && multiset(x) == multiset(y)
    ensures s.Tags() <= t.Tags()
  {
    EffectPermuted(t.Tags(), x, y);
    ResolvesLeast(t, y);
    ResolvesLeast(s, x);
  }

  lemma SameEvent(s: St, x: seq<Action>, t: St, y: seq<Action>, e: Event)
    requires Does(FRESH, s, x) && Does(FRESH, t, y)
    requires s.Tags() == t.Tags() && Effect(s.Tags(), x) == Effect(t.Tags(), y)
    ensures s.log[e] == t.log[e]
    ensures e.Left? && !e.optional ==> multiset(s.pending)[e.callback] == multiset(t.pending)[e.callback]
    ensures e.Left? && e.optional ==> multiset(s.optional)[e.callback] == multiset(t.optional)[e.callback]
  {
    Happens(s, x, e);
    Happens(t, y, e);
  }

  lemma SameEvents(s: St, x: seq<Action>, t: St, y: seq<Action>)
    requires Does(FRESH, s, x) && Does(FRESH, t, y)
    requires s.Tags() == t.Tags() && Effect(s.Tags(), x) == Effect(t.Tags(), y)
    ensures s.log == t.log
    ensures multiset(s.pending) == multiset(t.pending)
    ensures multiset(s.optional) == multiset(t.optional)
  {
    forall e: Event ensures s.log[e] == t.log[e] {
      SameEvent(s, x, t, y, e);
    }
    forall c: Callback ensures multiset(s.pending)[c] == multiset(t.pending)[c] {
      SameEvent(s, x, t, y, Left(c, false));
    }
    forall c: Callback ensures multiset(s.optional)[c] == multiset(t.optional)[c] {
      SameEvent(s, x, t, y, Left(c, true));
    }
  }

  /**
   * Two runs of the same requests in different orders end with the same features, the same
   * callbacks run equally often, and the same callbacks left waiting.
   */
  lemma OrderDoesNotMatter(s: St, x: seq<Action>, t: St, y: seq<Action>)
    requires Does(FRESH, s, x) && Does(FRESH, t, y) && multiset(x) == multiset(y)
    ensures s.Tags() == t.Tags() && s.log == t.log
    ensures multiset(s.pending) == multiset(t.pending)
    ensures multiset(s.optional) == multiset(t.optional)
  {
    SameTags(s, x, t, y);
    SameTags(t, y, s, x);
    EffectPermuted(s.Tags(), x, y);
    SameEvents(s, x, t, y);
  }

  /**
   * Every callback that the code around a fresh instance asks for, required or optional, has run if
   * features of all the types it names are registered in the end, and waits in its list otherwise.
   */
  lemma RunsExactly(s: St, acts: seq<Action>, i: nat)
    requires Does(FRESH, s, acts) && i < |acts| && acts[i].Require?
    ensures var c, optional := acts[i].callback, acts[i].optional;
      if forall k :: 0 <= k < |c.deps| ==> c.deps[k] in s.features then Ran(c) in s.log
      else if optional then c in s.optional else c in s.pending
  {
    var c, optional := acts[i].callback, acts[i].optional;
    EffectPick(s.Tags(), acts, i);
    Happens(s, acts, if Satisfied(s.Tags(), c) then Ran(c) else Left(c, optional));
  }
}
