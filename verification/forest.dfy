/**
 * The attachment forest: attachments name a parent entity, and removing an
 * entity first removes, recursively, everything attached to it.
 *
 * Acyclicity is stated with a ghost `rank` that strictly decreases from a
 * parent to each of its attachments; the cascading delete needs it to
 * terminate, as the source's recursion does.
 */
module Forest {
  import opened Components
  import opened Registry
  import opened Wrappers

  /** Every attachment ranks strictly below its parent. */
  ghost predicate Ranked(r: Registry, rank: Entity -> nat)
  {
    forall f :: f in r.attachments ==> rank(f) < rank(r.attachments[f].parent)
  }

  /** `f` is `e`, or `f` hangs from `e` through a chain of attachments. */
  ghost predicate Below(r: Registry, rank: Entity -> nat, f: Entity, e: Entity)
    decreases rank(e) - rank(f)
  {
    if f == e then true
    else if rank(f) >= rank(e) then false
    else
      f in r.attachments && rank(f) < rank(r.attachments[f].parent)
      && Below(r, rank, r.attachments[f].parent, e)
  }

  /** `e` together with everything attached to it, directly or not. */
  ghost function Subtree(r: Registry, rank: Entity -> nat, e: Entity): set<Entity>
  {
    {e} + set f | f in r.attachments && Below(r, rank, f, e)
  }

  lemma BelowRank(r: Registry, rank: Entity -> nat, f: Entity, e: Entity)
    requires Below(r, rank, f, e)
    ensures rank(f) <= rank(e)
  {
  }

  /** An attachment of a member of the subtree is itself in the subtree. */
  lemma BelowChild(r: Registry, rank: Entity -> nat, g: Entity, e: Entity)
    requires Ranked(r, rank) && g in r.attachments
    requires Below(r, rank, r.attachments[g].parent, e)
    ensures Below(r, rank, g, e)
  {
    BelowRank(r, rank, r.attachments[g].parent, e);
  }

  /** Hanging from an attachment of `e` means hanging from `e`. */
  lemma {:induction false} BelowTrans(r: Registry, rank: Entity -> nat, f: Entity, c: Entity, e: Entity)
    requires Ranked(r, rank)
    requires Below(r, rank, f, c) && Below(r, rank, c, e)
    ensures Below(r, rank, f, e)
    decreases rank(c) - rank(f)
  {
    if f != c {
      BelowTrans(r, rank, r.attachments[f].parent, c, e);
      BelowRank(r, rank, c, e);
    }
  }

  /** The subtree is closed under hanging an attachment on one of its members. */
  lemma SubtreeClosed(r: Registry, rank: Entity -> nat, e: Entity, g: Entity)
    requires Ranked(r, rank) && g in r.attachments
    requires r.attachments[g].parent in Subtree(r, rank, e)
    ensures g in Subtree(r, rank, e)
  {
    BelowChild(r, rank, g, e);
  }

  /** The attachments of `e` still present, at positions after `i`. */
  ghost predicate ChildrenUpTo(r: Registry, e: Entity, i: int)
    requires Valid(r)
  {
    forall k :: 0 <= k < |r.members[Attachments]| && r.attachments[r.members[Attachments][k]].parent == e ==> k <= i
  }

  /**
   * The entities already removed while deleting `e`: all hang strictly
   * below `e`, each comes with its whole subtree, and each one's parent is
   * `e` or was removed too.
   */
  ghost predicate RemovedPart(r: Registry, rank: Entity -> nat, e: Entity, done: set<Entity>)
  {
    (forall f :: f in done ==> f in r.attachments && f != e && Below(r, rank, f, e))
    && (forall g :: g in r.attachments && r.attachments[g].parent in done ==> g in done)
    && (forall f :: f in done ==> r.attachments[f].parent == e || r.attachments[f].parent in done)
  }

  lemma RemoveSetRanked(r: Registry, rank: Entity -> nat, gone: set<Entity>)
    requires Ranked(r, rank)
    ensures Ranked(RemoveSet(r, gone), rank)
  {
  }

  /**
   * Removing a part that leaves `c` in place does not change what hangs
   * from `c`.
   */
  lemma {:induction false} BelowAfterRemoval(
    r: Registry, rank: Entity -> nat, e: Entity, done: set<Entity>, c: Entity, f: Entity)
    requires Ranked(r, rank) && RemovedPart(r, rank, e, done)
    requires c in r.attachments && r.attachments[c].parent == e && c !in done
    ensures Below(RemoveSet(r, done), rank, f, c) <==> Below(r, rank, f, c)
    ensures Below(r, rank, f, c) ==> f !in done
    decreases rank(c) - rank(f)
  {
    var cur := RemoveSet(r, done);
    if f != c && rank(f) < rank(c) {
      if f in r.attachments {
        var p := r.attachments[f].parent;
        if rank(f) < rank(p) {
          BelowAfterRemoval(r, rank, e, done, c, p);
          if Below(r, rank, f, c) {
            assert Below(r, rank, p, c);
            assert p !in done;
            BelowRank(r, rank, p, c);
            assert p != e;
            assert f !in done;
          }
        }
      }
    }
  }

  lemma SubtreeAfterRemoval(r: Registry, rank: Entity -> nat, e: Entity, done: set<Entity>, c: Entity)
    requires Ranked(r, rank) && RemovedPart(r, rank, e, done)
    requires c in r.attachments && r.attachments[c].parent == e && c !in done
    ensures Subtree(RemoveSet(r, done), rank, c) == Subtree(r, rank, c)
    ensures Subtree(r, rank, c) !! done
  {
    var cur := RemoveSet(r, done);
    forall f ensures f in Subtree(cur, rank, c) <==> f in Subtree(r, rank, c) {
      BelowAfterRemoval(r, rank, e, done, c, f);
    }
    forall f | f in Subtree(r, rank, c) ensures f !in done {
      BelowAfterRemoval(r, rank, e, done, c, f);
    }
  }

  /** Adding a removed attachment's subtree keeps the removed part well formed. */
  lemma RemovedPartGrows(r: Registry, rank: Entity -> nat, e: Entity, done: set<Entity>, c: Entity)
    requires Ranked(r, rank) && RemovedPart(r, rank, e, done)
    requires c in r.attachments && r.attachments[c].parent == e && c !in done
    ensures RemovedPart(r, rank, e, done + Subtree(r, rank, c))
  {
    var t := Subtree(r, rank, c);
    var d := done + t;
    assert Below(r, rank, c, e);
    forall f | f in t ensures f in r.attachments && f != e && Below(r, rank, f, e) {
      BelowRank(r, rank, f, c);
      BelowTrans(r, rank, f, c, e);
    }
    forall g | g in r.attachments && r.attachments[g].parent in d ensures g in d {
      if r.attachments[g].parent in t {
        BelowChild(r, rank, g, c);
      }
    }
  }

  /** Once no attachment of `e` is left, the removed part is all of `e`'s subtree but `e`. */
  lemma {:induction false} RemovedAll(r: Registry, rank: Entity -> nat, e: Entity, done: set<Entity>, f: Entity)
    requires Valid(r) && Ranked(r, rank) && RemovedPart(r, rank, e, done)
    requires forall g :: g in RemoveSet(r, done).attachments ==> r.attachments[g].parent != e
    requires f in r.attachments && Below(r, rank, f, e) && f != e
    ensures f in done
    decreases rank(e) - rank(f)
  {
    var p := r.attachments[f].parent;
    if p != e {
      BelowRank(r, rank, p, e);
      RemovedAll(r, rank, e, done, p);
    }
  }

  /**
   * After a removal, the attachments of `e` that remain all sat before
   * position `i` of the list, which held the removed one.
   */
  lemma ChildrenAfterRemoval(r: Registry, e: Entity, i: int, gone: set<Entity>)
    requires Valid(r) && 0 <= i < |r.members[Attachments]|
    requires ChildrenUpTo(r, e, i) && r.members[Attachments][i] in gone
    ensures Valid(RemoveSet(r, gone))
    ensures ChildrenUpTo(RemoveSet(r, gone), e, i - 1)
  {
    RemoveSetValid(r, gone);
    var a := r.members[Attachments];
    var cur := RemoveSet(r, gone);
    var b := cur.members[Attachments];
    assert b == Without(a, gone);
    forall k | 0 <= k < |b| && cur.attachments[b[k]].parent == e ensures k <= i - 1 {
      WithoutEarlier(a, gone, k);
      var j :| k <= j < |a| && a[j] == b[k];
      assert j != i;
    }
  }

  /** Passing over an entry that is not an attachment of `e`. */
  lemma ChildrenSkip(r: Registry, e: Entity, i: int)
    requires Valid(r) && 0 <= i < |r.members[Attachments]|
    requires ChildrenUpTo(r, e, i) && r.attachments[r.members[Attachments][i]].parent != e
    ensures ChildrenUpTo(r, e, i - 1)
  {
  }

  lemma ChildrenClip(r: Registry, e: Entity, i: int)
    requires Valid(r) && ChildrenUpTo(r, e, i)
    ensures ChildrenUpTo(r, e, if i < |r.members[Attachments]| - 1 then i else |r.members[Attachments]| - 1)
  {
  }

  /** Removing no entity leaves the registry as it was. */
  lemma RemoveNothing(r: Registry)
    ensures RemoveSet(r, {}) == r
  {
    var l := RemoveSet(r, {});
    forall c | c in r.members ensures l.members[c] == r.members[c] {
      WithoutNothing(r.members[c], {});
    }
    assert l.members == r.members;
  }

  /**
   * When the walk ends no attachment of `e` is left, so the removed part
   * and `e` make up `e`'s whole subtree.
   */
  lemma SubtreeDone(r: Registry, rank: Entity -> nat, e: Entity, done: set<Entity>, i: int)
    requires Valid(r) && Ranked(r, rank) && RemovedPart(r, rank, e, done)
    requires Valid(RemoveSet(r, done)) && ChildrenUpTo(RemoveSet(r, done), e, i)
    requires i < 0 || |RemoveSet(r, done).members[Attachments]| == 0
    ensures done + {e} == Subtree(r, rank, e)
  {
    var cur := RemoveSet(r, done);
    forall g | g in cur.attachments ensures r.attachments[g].parent != e {
      var a := cur.members[Attachments];
      var k :| 0 <= k < |a| && a[k] == g;
    }
    forall f | f in r.attachments && Below(r, rank, f, e) && f != e ensures f in done {
      RemovedAll(r, rank, e, done, f);
    }
  }

  /**
   * One step of `remove_entity`'s walk: the entry at `i` hangs from `e`, so
   * it goes with its whole subtree, which joins the part already removed.
   */
  method RemoveChild(r: Registry, e: Entity, ghost rank: Entity -> nat, cur: Registry, ghost done: set<Entity>, i: int)
    returns (cur': Registry, ghost done': set<Entity>)
    requires Valid(r) && Ranked(r, rank)
    requires cur == RemoveSet(r, done) && Valid(cur) && Ranked(cur, rank) && RemovedPart(r, rank, e, done)
    requires 0 <= i < |cur.members[Attachments]| && ChildrenUpTo(cur, e, i)
    requires cur.attachments[cur.members[Attachments][i]].parent == e
    ensures cur' == RemoveSet(r, done') && Valid(cur') && Ranked(cur', rank) && RemovedPart(r, rank, e, done')
    ensures ChildrenUpTo(cur', e, i - 1)
    decreases rank(e), 0
  {
    var child := cur.members[Attachments][i];
    ghost var sub := Subtree(cur, rank, child);
    SubtreeAfterRemoval(r, rank, e, done, child);
    RemovedPartGrows(r, rank, e, done, child);
    ChildrenAfterRemoval(cur, e, i, sub);
    cur' := RemoveEntity(cur, child, rank);
    RemoveSetTwice(r, done, sub);
    done' := done + sub;
    RemoveSetRanked(r, rank, done');
  }

  /**
   * `remove_entity`: walk the attachment list from the back, removing
   * every attachment of `e` with all that hangs from it, then remove `e`.
   * The result is the registry without `e`'s whole subtree; every other
   * entity keeps every component it had.
   */
  method RemoveEntity(r: Registry, e: Entity, ghost rank: Entity -> nat) returns (r': Registry)
    requires Valid(r) && Ranked(r, rank)
    ensures r' == RemoveSet(r, Subtree(r, rank, e))
    ensures forall c, f :: f !in Subtree(r, rank, e) ==> (Has(r', c, f) <==> Has(r, c, f))
    ensures forall c, f :: f in Subtree(r, rank, e) && Registered(c) ==> !Has(r', c, f)
    decreases rank(e), 1
  {
    var cur := r;
    ghost var done: set<Entity> := {};
    RemoveNothing(r);
    var i := |cur.members[Attachments]| - 1;
    while i >= 0 && |cur.members[Attachments]| > 0
      invariant cur == RemoveSet(r, done)
      invariant Valid(cur) && Ranked(cur, rank)
      invariant RemovedPart(r, rank, e, done)
      invariant i < |cur.members[Attachments]|
      invariant ChildrenUpTo(cur, e, i)
      decreases i + 1
    {
      var child := cur.members[Attachments][i];
      if cur.attachments[child].parent == e {
        cur, done := RemoveChild(r, e, rank, cur, done, i);
      } else {
        ChildrenSkip(cur, e, i);
      }
      var last := |cur.members[Attachments]| - 1;
      ChildrenClip(cur, e, i - 1);
      i := if i - 1 < last then i - 1 else last;
    }
    SubtreeDone(r, rank, e, done, i);
    r' := RemoveAllComponentsOf(cur, e);
    RemoveSetTwice(r, done, {e});
  }

  /**
   * `getAttachment`: the last attachment, in container order, of the
   * given kind hanging directly from `character`; `None` stands for the
   * default entity the source returns when there is none. The source
   * returns a reference to its local variable, which dangles once it
   * returns; the model returns the entity itself.
   */
  method GetAttachment(r: Registry, character: Entity, kind: AttachmentId) returns (found: Option<Entity>)
    requires Valid(r)
    ensures found.None? <==> forall k :: 0 <= k < |r.members[Attachments]| ==> !Matches(r, r.members[Attachments][k], character, kind)
    ensures found.Some? ==> exists k :: 0 <= k < |r.members[Attachments]| && r.members[Attachments][k] == found.value
                                && Matches(r, found.value, character, kind)
                                && (forall j :: k < j < |r.members[Attachments]| ==> !Matches(r, r.members[Attachments][j], character, kind))
  {
    var a := r.members[Attachments];
    found := None;
    ghost var at := -1;
    for i := 0 to |a|
      invariant found.None? <==> forall k :: 0 <= k < i ==> !Matches(r, a[k], character, kind)
      invariant found.None? ==> at == -1
      invariant found.Some? ==> 0 <= at < i && a[at] == found.value && Matches(r, found.value, character, kind)
      invariant found.Some? ==> forall j :: at < j < i ==> !Matches(r, a[j], character, kind)
    {
      var att := r.attachments[a[i]];
      if att.parent == character && att.kind == kind {
        found := Some(a[i]);
        at := i;
      }
    }
  }

  predicate Matches(r: Registry, f: Entity, character: Entity, kind: AttachmentId)
  {
    f in r.attachments && r.attachments[f].parent == character && r.attachments[f].kind == kind
  }
}
