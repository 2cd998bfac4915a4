/** What the media guards keep over any run, and what the live-media query computes. */
module MediaLife {
  import opened Basics
  import opened MediaObjects
  import P = PayloadGuard

  // ---------------------------------------------------------------------------
  // Families
  // ---------------------------------------------------------------------------

  predicate ParentFits(objects: Objects, o: Object) {
    o.parent.Some? ==>
      && o.parent.value in objects
      && objects[o.parent.value].born < o.born
      && objects[o.parent.value].account == o.account
      && objects[o.parent.value].source == o.source
  }

  /** Parents exist, are older, and agree in account and source revision. */
  ghost predicate Forest(s: State) {
    && (forall id | id in s.objects :: ParentFits(s.objects, s.objects[id]))
    && (forall id | id in s.objects :: s.objects[id].born < s.next)
  }

  lemma GuardKeepsOwner(db: P.Database, objects: Objects, previous: Object, proposed: Object)
    requires Guard(db, objects, Some(previous), proposed).Ok?
    ensures var o := Guard(db, objects, Some(previous), proposed).value;
            o.account == previous.account && o.parent == previous.parent && o.source == previous.source
            && o.born == proposed.born
  {
    hide EntryError;
  }

  lemma GuardChecksParent(db: P.Database, objects: Objects, proposed: Object)
    requires Guard(db, objects, None, proposed).Ok? && proposed.parent.Some?
    ensures Guard(db, objects, None, proposed).value == proposed
    ensures var p := proposed.parent.value;
            p in objects && objects[p].account == proposed.account && objects[p].source == proposed.source
            && !Closing(objects[p])
  {
    hide P.Blocked, SourceBlocked, Closing;
  }

  lemma StepKeepsForest(s: State, step: Step)
    requires Forest(s)
    ensures Forest(Apply(s, step))
  {
    hide Guard;
    var after := Apply(s, step);
    match step
    case Insert(db, id, item) =>
      if id !in s.objects && Guard(db, s.objects, None, item).Ok? {
        InsertedAsProposed(db, s.objects, item);
        if item.parent.Some? {
          GuardChecksParent(db, s.objects, item);
        }
        forall k | k in after.objects
          ensures ParentFits(after.objects, after.objects[k])
        {
          assert k != id ==> ParentFits(s.objects, s.objects[k]);
        }
      }
    case Update(db, id, item) =>
      if id in s.objects && Guard(db, s.objects, Some(s.objects[id]), item.(born := s.objects[id].born)).Ok? {
        GuardKeepsOwner(db, s.objects, s.objects[id], item.(born := s.objects[id].born));
        forall k | k in after.objects
          ensures ParentFits(after.objects, after.objects[k])
        {
          assert ParentFits(s.objects, s.objects[k]);
        }
      }
    case Refer(_, _, _, _, _, _, _) =>
    case Unlink(_) =>
  }

  lemma InsertedAsProposed(db: P.Database, objects: Objects, proposed: Object)
    requires Guard(db, objects, None, proposed).Ok?
    ensures Guard(db, objects, None, proposed).value == proposed
  {
    hide EntryError;
  }

  /** The oldest ancestor. */
  ghost function Root(s: State, id: Uuid): (root: Uuid)
    requires Forest(s) && id in s.objects
    ensures root in s.objects && s.objects[root].parent.None?
    decreases s.objects[id].born
  {
    assert ParentFits(s.objects, s.objects[id]);
    if s.objects[id].parent.None? then id else Root(s, s.objects[id].parent.value)
  }

  /** The whole of a family has the account and source revision of its root. */
  lemma {:induction false} RootAgrees(s: State, id: Uuid)
    requires Forest(s) && id in s.objects
    ensures var root := Root(s, id);
            s.objects[root].account == s.objects[id].account && s.objects[root].source == s.objects[id].source
    decreases s.objects[id].born
  {
    assert ParentFits(s.objects, s.objects[id]);
    if s.objects[id].parent.Some? {
      RootAgrees(s, s.objects[id].parent.value);
    }
  }

  /** From empty tables, any run leaves a forest whose families each stem from one source revision. */
  lemma {:induction false} RunsMakeForests(steps: seq<Step>)
    ensures var s := Run(EMPTY, steps);
            && Forest(s)
            && forall a, b | a in s.objects && b in s.objects && Root(s, a) == Root(s, b) ::
                 s.objects[a].source == s.objects[b].source && s.objects[a].account == s.objects[b].account
  {
    hide Apply;
    if steps != [] {
      RunsMakeForests(steps[..|steps| - 1]);
      StepKeepsForest(Run(EMPTY, steps[..|steps| - 1]), steps[|steps| - 1]);
    }
    var s := Run(EMPTY, steps);
    forall a, b | a in s.objects && b in s.objects && Root(s, a) == Root(s, b)
      ensures s.objects[a].source == s.objects[b].source && s.objects[a].account == s.objects[b].account
    {
      RootAgrees(s, a);
      RootAgrees(s, b);
    }
  }

  // ---------------------------------------------------------------------------
  // The life of one object
  // ---------------------------------------------------------------------------

  /** What may become of an object. */
  predicate Ages(a: Object, b: Object) {
    && (a.account, a.parent, a.source, a.born) == (b.account, b.parent, b.source, b.born)
    && (a.deleteRequested.Some? ==> b.deleteRequested == a.deleteRequested)
    && (a.status == Deleted ==> b == a)
    && (a.deleteRequested.Some? && b.status in {Pending, Ready} ==> b.status == a.status)
    && (a.storageKey.Some? && a.status != Deleted ==>
          || (b.storageKey == a.storageKey && b.sha256 == a.sha256)
          || (b.status == Deleted && b.storageKey.None? && b.sha256.None?))
  }

  lemma GuardAges(db: P.Database, objects: Objects, previous: Object, proposed: Object)
    requires Guard(db, objects, Some(previous), proposed).Ok? && proposed.born == previous.born
    ensures Ages(previous, Guard(db, objects, Some(previous), proposed).value)
  {
    hide EntryError;
  }

  lemma AgingComposes(a: Object, b: Object, c: Object)
    requires Ages(a, b) && Ages(b, c)
    ensures Ages(a, c)
  {
  }

  lemma StepAges(s: State, step: Step, id: Uuid)
    requires id in s.objects
    ensures id in Apply(s, step).objects && Ages(s.objects[id], Apply(s, step).objects[id])
  {
    hide Guard;
    if step.Update? && step.id == id {
      var proposed := step.item.(born := s.objects[id].born);
      if Guard(step.db, s.objects, Some(s.objects[id]), proposed).Ok? {
        GuardAges(step.db, s.objects, s.objects[id], proposed);
      }
    }
  }

  /** An object appears, or becomes ready, only in an open scope, from an open source, under an open parent. */
  lemma EntryNeedsOpenScope(s: State, step: Step, id: Uuid)
    requires step.Insert? || step.Update?
    requires var after := Apply(s, step).objects;
             id in after && (id !in s.objects || (after[id].status == Ready && s.objects[id].status != Ready))
    ensures var o := Apply(s, step).objects[id];
            && !P.Blocked(step.db, P.OtherTable(0), Some(AccountRow(o.account)))
            && (o.source.Some? ==> !SourceBlocked(step.db, o.account, o.source.value))
            && (o.parent.Some? ==>
                  o.parent.value in s.objects && !Closing(s.objects[o.parent.value])
                  && s.objects[o.parent.value].source == o.source)
  {
    hide P.Blocked, SourceBlocked, Closing, UpdateError, Normalized;
  }

  /** No row comes to refer to an object whose deletion was requested. */
  lemma StepAddsNoLink(s: State, step: Step, l: Link)
    requires l.item in s.objects && Closing(s.objects[l.item]) && l !in s.links
    ensures l !in Apply(s, step).links
  {
    hide Guard, P.Blocked;
  }

  /**
   An object over any run: it is never dropped, ages one way, keeps its file until it is
   deleted, and once its deletion is requested gains no reference it does not have.
   */
  lemma {:induction false} ObjectHistory(s: State, steps: seq<Step>, id: Uuid)
    requires id in s.objects
    ensures var after := Run(s, steps);
            && id in after.objects && Ages(s.objects[id], after.objects[id])
            && (s.objects[id].deleteRequested.Some? ==>
                  forall l | l in after.links && l.item == id :: l in s.links)
  {
    hide Apply, Ages;
    if steps == [] {
      AgingStarts(s.objects[id]);
    } else {
      var front, last := steps[..|steps| - 1], steps[|steps| - 1];
      ObjectHistory(s, front, id);
      var mid := Run(s, front);
      StepAges(mid, last, id);
      AgingComposes(s.objects[id], mid.objects[id], Apply(mid, last).objects[id]);
      if s.objects[id].deleteRequested.Some? {
        StaysClosing(s.objects[id], mid.objects[id]);
        forall l | l in Apply(mid, last).links && l.item == id
          ensures l in s.links
        {
          if l !in mid.links {
            StepAddsNoLink(mid, last, l);
          }
        }
      }
    }
  }

  lemma AgingStarts(a: Object)
    ensures Ages(a, a)
  {
  }

  lemma StaysClosing(a: Object, b: Object)
    requires Ages(a, b) && a.deleteRequested.Some?
    ensures Closing(b)
  {
  }

  // ---------------------------------------------------------------------------
  // Live media
  // ---------------------------------------------------------------------------

  function OfAccount(objects: Objects, account: Uuid): set<Uuid> {
    set id | id in objects && objects[id].account == account
  }

  /** One object is the parent of the other. */
  predicate Linked(objects: Objects, a: Uuid, b: Uuid) {
    a in objects && b in objects && (objects[a].parent == Some(b) || objects[b].parent == Some(a))
  }

  /** The recursive part of the query, repeated until it adds nothing. */
  function Family(objects: Objects, account: Uuid, found: set<Uuid>): (all: set<Uuid>)
    requires found <= OfAccount(objects, account)
    ensures found <= all <= OfAccount(objects, account)
    decreases OfAccount(objects, account) - found
  {
    var more := set o | o in OfAccount(objects, account) && exists f | f in found :: Linked(objects, o, f);
    if more <= found then found
    else
      assert found < found + more;
      Family(objects, account, found + more)
  }

  /** `erasure_live_media`, given the objects that live records refer to. */
  function LiveMedia(objects: Objects, account: Uuid, seeds: set<Uuid>): (live: set<Uuid>)
    ensures live <= OfAccount(objects, account)
  {
    Family(objects, account, OfAccount(objects, account) * seeds)
  }

  ghost predicate ClosedUnderLinks(objects: Objects, account: Uuid, all: set<Uuid>) {
    forall a, b | a in all && b in OfAccount(objects, account) && Linked(objects, b, a) :: b in all
  }

  lemma {:induction false} FamilyIsClosed(objects: Objects, account: Uuid, found: set<Uuid>)
    requires found <= OfAccount(objects, account)
    ensures ClosedUnderLinks(objects, account, Family(objects, account, found))
    decreases OfAccount(objects, account) - found
  {
    hide Linked;
    var more := set o | o in OfAccount(objects, account) && exists f | f in found :: Linked(objects, o, f);
    if more <= found {
      assert forall a, b | a in found && b in OfAccount(objects, account) && Linked(objects, b, a) :: b in more;
    } else {
      assert found < found + more;
      FamilyIsClosed(objects, account, found + more);
    }
  }

  lemma LinkedShareRoot(s: State, a: Uuid, b: Uuid)
    requires Forest(s) && Linked(s.objects, a, b)
    ensures Root(s, a) == Root(s, b)
  {
    assert ParentFits(s.objects, s.objects[a]) && ParentFits(s.objects, s.objects[b]);
  }

  ghost predicate Rooted(s: State, all: set<Uuid>, seeds: set<Uuid>)
    requires Forest(s)
  {
    forall id | id in all ::
      id in s.objects && exists seed | seed in seeds && seed in s.objects :: Root(s, seed) == Root(s, id)
  }

  lemma {:induction false} FamilyIsRooted(s: State, account: Uuid, found: set<Uuid>, seeds: set<Uuid>)
    requires Forest(s) && found <= OfAccount(s.objects, account) && Rooted(s, found, seeds)
    ensures Rooted(s, Family(s.objects, account, found), seeds)
    decreases OfAccount(s.objects, account) - found
  {
    hide Linked, Root;
    var more := set o | o in OfAccount(s.objects, account) && exists f | f in found :: Linked(s.objects, o, f);
    if !(more <= found) {
      assert found < found + more;
      forall id | id in found + more
        ensures id in s.objects && exists seed | seed in seeds && seed in s.objects :: Root(s, seed) == Root(s, id)
      {
        if id !in found {
          var f :| f in found && Linked(s.objects, id, f);
          LinkedShareRoot(s, id, f);
          var seed :| seed in seeds && seed in s.objects && Root(s, seed) == Root(s, f);
        }
      }
      FamilyIsRooted(s, account, found + more, seeds);
    }
  }

  lemma {:induction false} RootIsReached(s: State, account: Uuid, all: set<Uuid>, id: Uuid)
    requires Forest(s) && ClosedUnderLinks(s.objects, account, all)
    requires id in s.objects && s.objects[id].account == account && id in all
    ensures Root(s, id) in all
    decreases s.objects[id].born
  {
    assert ParentFits(s.objects, s.objects[id]);
    if s.objects[id].parent.Some? {
      var p := s.objects[id].parent.value;
      assert Linked(s.objects, p, id);
      RootIsReached(s, account, all, p);
    }
  }

  lemma {:induction false} RootReaches(s: State, account: Uuid, all: set<Uuid>, id: Uuid)
    requires Forest(s) && ClosedUnderLinks(s.objects, account, all)
    requires id in s.objects && s.objects[id].account == account && Root(s, id) in all
    ensures id in all
    decreases s.objects[id].born
  {
    assert ParentFits(s.objects, s.objects[id]);
    if s.objects[id].parent.Some? {
      var p := s.objects[id].parent.value;
      RootReaches(s, account, all, p);
      assert Linked(s.objects, id, p);
    }
  }

  /** An object is live exactly when some seed of the account belongs to its family. */
  lemma LiveExactly(s: State, account: Uuid, seeds: set<Uuid>, id: Uuid)
    requires Forest(s)
    ensures id in LiveMedia(s.objects, account, seeds) <==>
              && id in s.objects && s.objects[id].account == account
              && exists seed | seed in seeds && seed in s.objects :: Root(s, seed) == Root(s, id)
  {
    var start := OfAccount(s.objects, account) * seeds;
    var live := LiveMedia(s.objects, account, seeds);
    FamilyIsClosed(s.objects, account, start);
    FamilyIsRooted(s, account, start, seeds);
    if id in s.objects && s.objects[id].account == account {
      if seed :| seed in seeds && seed in s.objects && Root(s, seed) == Root(s, id) {
        RootAgrees(s, seed);
        RootAgrees(s, id);
        assert seed in start;
        RootIsReached(s, account, live, seed);
        RootReaches(s, account, live, id);
      }
    }
  }

  /** A family is wholly live or wholly dead. */
  lemma FamiliesLiveTogether(s: State, account: Uuid, seeds: set<Uuid>, a: Uuid, b: Uuid)
    requires Forest(s) && a in s.objects && b in s.objects && Root(s, a) == Root(s, b)
    ensures a in LiveMedia(s.objects, account, seeds) <==> b in LiveMedia(s.objects, account, seeds)
  {
    LiveExactly(s, account, seeds, a);
    LiveExactly(s, account, seeds, b);
    RootAgrees(s, a);
    RootAgrees(s, b);
  }
}
