/**
 * Attachments follow their parent: `update_attachment_orientation` swings
 * an attachment's joint within its freedom and recomputes its transform
 * from the parent's, and `step_attachment_movement` does so for every
 * attachment in container order.
 */
module Articulation {
  import opened Vectors
  import opened Common
  import opened Components
  import opened Registry
  import opened Motions

  /**
   * The joint angle before clamping: the force path (boss arms) takes
   * priority over a constant angular velocity (the sword); with neither the
   * angle stays.
   */
  function Swing(lib: Libm, t: Transform, m: Motion, a: Attachment, secs: real): real
  {
    if Length(lib, m.force) > 0.0 then a.movedAngle + TurnRate(lib, t, m, secs) * secs
    else if Abs(m.angularVelocity) > 0.0 then a.movedAngle + m.angularVelocity * secs
    else a.movedAngle
  }

  /** Without a force the joint swings by the constant angular velocity. */
  lemma ForcelessSwing(lib: Libm, t: Transform, m: Motion, a: Attachment, secs: real)
    requires lib.sqrt(0.0) == 0.0 && m.force == Zero
    ensures Swing(lib, t, m, a, secs) == a.movedAngle + m.angularVelocity * secs
  {
    assert Length(lib, m.force) == 0.0 by {
      assert Norm2(m.force) == Norm2(Zero) == 0.0;
    }
  }

  /** Under a force the constant angular velocity is ignored. */
  lemma SwingForcePriority(lib: Libm, t: Transform, m: Motion, a: Attachment, secs: real, w: real)
    requires Length(lib, m.force) > 0.0
    ensures Swing(lib, t, m.(angularVelocity := w), a, secs) == Swing(lib, t, m, a, secs)
  {
    assert Remaining(lib, t, m.(angularVelocity := w)) == Remaining(lib, t, m);
  }

  /**
   * Under a force a positive step moves the joint by at most the capped
   * rate times the step, and not past the wrapped remainder.
   */
  lemma SwingBounded(lib: Libm, t: Transform, m: Motion, a: Attachment, secs: real)
    requires Length(lib, m.force) > 0.0 && secs > 0.0 && 0.0 <= m.maxAngularVelocity
    ensures Abs(Swing(lib, t, m, a, secs) - a.movedAngle) <= m.maxAngularVelocity * secs
    ensures Abs(Swing(lib, t, m, a, secs) - a.movedAngle) <= Abs(Rewrap(Remaining(lib, t, m)))
  {
    TurnStep(lib, t, m, secs);
    assert Swing(lib, t, m, a, secs) == a.movedAngle + TurnRate(lib, t, m, secs) * secs;
  }

  /** One step at the turn rate stays within the cap and within the wrapped remainder. */
  lemma TurnStep(lib: Libm, t: Transform, m: Motion, secs: real)
    requires secs > 0.0 && 0.0 <= m.maxAngularVelocity
    ensures Abs(TurnRate(lib, t, m, secs) * secs) <= m.maxAngularVelocity * secs
    ensures Abs(TurnRate(lib, t, m, secs) * secs) <= Abs(Rewrap(Remaining(lib, t, m)))
  {
    TurnStepCap(lib, t, m, secs);
    TurnStepRemainder(lib, t, m, secs);
  }

  lemma TurnStepCap(lib: Libm, t: Transform, m: Motion, secs: real)
    requires secs > 0.0 && 0.0 <= m.maxAngularVelocity
    ensures Abs(TurnRate(lib, t, m, secs) * secs) <= m.maxAngularVelocity * secs
  {
    var w := TurnRate(lib, t, m, secs);
    AbsScaled(w, secs);
    ScaleLe(Abs(w), m.maxAngularVelocity, secs);
  }

  lemma TurnStepRemainder(lib: Libm, t: Transform, m: Motion, secs: real)
    requires secs > 0.0 && 0.0 <= m.maxAngularVelocity
    ensures Abs(TurnRate(lib, t, m, secs) * secs) <= Abs(Rewrap(Remaining(lib, t, m)))
  {
    AbsScaled(TurnRate(lib, t, m, secs), secs);
  }

  lemma AbsScaled(w: real, s: real)
    requires s > 0.0
    ensures Abs(w * s) == Abs(w) * s
  {
    if w < 0.0 {
      assert w * s < 0.0;
      assert -(w * s) == (-w) * s;
    } else {
      assert w * s >= 0.0;
    }
  }

  lemma ScaleLe(x: real, y: real, s: real)
    requires x <= y && s > 0.0
    ensures x * s <= y * s
  {
    assert (y - x) * s >= 0.0;
  }

  /**
   * The clamp of the joint angle: within ANGLE_PRECISION of the rest angle
   * it snaps to the rest angle; otherwise it keeps the swing's sign and
   * the smaller of the freedom and the swing's magnitude.
   */
  function Clamped(a: Attachment, swing: real): (r: real)
    ensures Abs(swing - a.angleOffset) <= ANGLE_PRECISION ==> r == a.angleOffset
    ensures Abs(swing - a.angleOffset) > ANGLE_PRECISION && 0.0 <= a.angleFreedom ==>
      Abs(r) <= a.angleFreedom && r * swing >= 0.0 && (r == swing || Abs(r) == a.angleFreedom)
  {
    if Abs(swing - a.angleOffset) > ANGLE_PRECISION then Sign(swing) * Min(a.angleFreedom, Abs(swing))
    else a.angleOffset
  }

  /** The joint is at rest or within its freedom. */
  predicate WithinFreedom(a: Attachment)
  {
    a.movedAngle == a.angleOffset || Abs(a.movedAngle) <= a.angleFreedom
  }

  /** An attachment never given freedom or a rest angle (gun, dash trail) keeps its joint at zero. */
  lemma NoFreedomStaysStraight(a: Attachment, swing: real)
    requires a.angleFreedom == 0.0 && a.angleOffset == 0.0
    ensures Clamped(a, swing) == 0.0
  {
  }

  /**
   * The attachment's matrix: the parent's position and angle, then the
   * first relative transformation, the joint rotation, then the second.
   */
  function Placement(lib: Libm, parent: Transform, a: Attachment, moved: real): Mat3
  {
    var p := Rotate(lib, Translate(Identity, parent.position), parent.angle);
    Common.Mul(Rotate(lib, Common.Mul(p, a.relative1), moved), a.relative2)
  }

  /** Rotations and translations keep the determinant, so only the relative transformations can mirror. */
  lemma PlacementDet(lib: Libm, parent: Transform, a: Attachment, moved: real)
    requires TrigLaw(lib)
    ensures Det(Placement(lib, parent, a, moved)) == Det(a.relative1) * Det(a.relative2)
  {
    var t := Translate(Identity, parent.position);
    var p := Rotate(lib, t, parent.angle);
    assert Det(t) == 1.0;
    DetMul(t, RotationMatrix(lib, parent.angle));
    RotationDet(lib, parent.angle);
    assert Det(p) == 1.0;
    DetMul(p, a.relative1);
    var q := Common.Mul(p, a.relative1);
    DetMul(q, RotationMatrix(lib, moved));
    RotationDet(lib, moved);
    var u := Rotate(lib, q, moved);
    assert Det(u) == Det(a.relative1);
    DetMul(u, a.relative2);
  }

  /** Moving the parent moves the attachment's matrix by the same offset: it follows rigidly. */
  lemma PlacementFollowsParent(lib: Libm, parent: Transform, a: Attachment, moved: real, v: Vec2)
    ensures Placement(lib, parent.(position := Add(parent.position, v)), a, moved)
         == Shift(Placement(lib, parent, a, moved), v)
  {
    var t := Translate(Identity, parent.position);
    TranslateIdentity(parent.position);
    TranslateIdentity(Add(parent.position, v));
    assert Translate(Identity, Add(parent.position, v)) == Shift(t, v);
    MulShift(t, RotationMatrix(lib, parent.angle), v);
    var p := Rotate(lib, t, parent.angle);
    MulShift(p, a.relative1, v);
    var q := Common.Mul(p, a.relative1);
    MulShift(q, RotationMatrix(lib, moved), v);
    MulShift(Rotate(lib, q, moved), a.relative2, v);
  }

  lemma Norm2NonNeg(v: Vec2)
    ensures Norm2(v) >= 0.0
  {
  }

  lemma LengthNonNeg(lib: Libm, v: Vec2)
    requires SqrtLaw(lib)
    ensures Length(lib, v) >= 0.0
  {
    Norm2NonNeg(v);
    SqrtOf(lib, Norm2(v));
  }

  /**
   * Lengths are non-negative, and a matrix with nonzero determinant has a
   * first column of positive length.
   */
  lemma ColumnLength(lib: Libm, m: Mat3)
    requires SqrtLaw(lib)
    ensures Length(lib, Vec2(m.a, m.b)) >= 0.0 && Length(lib, Vec2(m.c, m.d)) >= 0.0
    ensures Det(m) != 0.0 ==> Length(lib, Vec2(m.a, m.b)) > 0.0
  {
    LengthNonNeg(lib, Vec2(m.a, m.b));
    LengthNonNeg(lib, Vec2(m.c, m.d));
    if !(m.a == 0.0 && m.b == 0.0) {
      PositiveNorm(Vec2(m.a, m.b));
      SqrtOf(lib, Norm2(Vec2(m.a, m.b)));
    }
  }

  /**
   * The transform read back from the attachment's matrix: its position is
   * the translation column; a matrix with negative determinant is taken as
   * a horizontal flip, so the x scale is the negated column length. A dash
   * trail points along its parent's velocity instead.
   */
  function Decompose(lib: Libm, t: Transform, m: Mat3, kind: AttachmentId, parentVelocity: Vec2): (r: Transform)
    ensures r.position == Origin(m)
    ensures r.isScreenCoord == t.isScreenCoord && r.angleOffset == t.angleOffset
    ensures kind == DashingPart ==> r.angle == lib.atan2(parentVelocity.y, parentVelocity.x)
    ensures r.scale == Vec2(if Det(m) < 0.0 then -Length(lib, Vec2(m.a, m.b)) else Length(lib, Vec2(m.a, m.b)),
                            Length(lib, Vec2(m.c, m.d)))
  {
    var flipped := Det(m) < 0.0;
    var n := if flipped then m.(a := -m.a, d := -m.d) else m;
    var angle := lib.atan2(n.b, n.a);
    var sx := Length(lib, Vec2(n.a, n.b));
    var sy := Length(lib, Vec2(n.c, n.d));
    assert Norm2(Vec2(n.a, n.b)) == Norm2(Vec2(m.a, m.b));
    assert Norm2(Vec2(n.c, n.d)) == Norm2(Vec2(m.c, m.d));
    var scale := Vec2(if flipped then -sx else sx, sy);
    var angle' := if kind == DashingPart then lib.atan2(parentVelocity.y, parentVelocity.x)
                  else if flipped then -angle else angle;
    t.(position := Origin(m), angle := angle', scale := scale)
  }

  /** The read-back transform is mirrored exactly when the matrix has a negative determinant. */
  lemma DecomposeFlip(lib: Libm, t: Transform, m: Mat3, kind: AttachmentId, parentVelocity: Vec2)
    requires SqrtLaw(lib)
    ensures Det(m) < 0.0 <==> Decompose(lib, t, m, kind, parentVelocity).scale.x < 0.0
    ensures Decompose(lib, t, m, kind, parentVelocity).scale.y >= 0.0
  {
    ColumnLength(lib, m);
  }

  /** The state `step_attachment_movement` updates: the registry's attachment data, transforms and motions. */
  datatype Rig = Rig(reg: Registry, transforms: map<Entity, Transform>, motions: map<Entity, Motion>)

  /**
   * What the source asserts before reading: `e` is an attachment, and when
   * it has a transform and a motion its parent has a transform, and a
   * motion as well if `e` is a dash trail.
   */
  predicate Hangs(w: Rig, e: Entity)
  {
    && e in w.reg.attachments
    && (e in w.transforms && e in w.motions ==>
          && w.reg.attachments[e].parent in w.transforms
          && (w.reg.attachments[e].kind == DashingPart ==> w.reg.attachments[e].parent in w.motions))
  }

  /** The same entities carry the same attachments up to their joint angles, and motions are untouched. */
  predicate SameFrame(w: Rig, w': Rig)
  {
    && w'.motions == w.motions
    && w'.reg == w.reg.(attachments := w'.reg.attachments)
    && w'.transforms.Keys == w.transforms.Keys
    && w'.reg.attachments.Keys == w.reg.attachments.Keys
    && (forall x :: x in w.reg.attachments ==>
          w'.reg.attachments[x] == w.reg.attachments[x].(movedAngle := w'.reg.attachments[x].movedAngle))
  }

  /**
   * `update_attachment_orientation(e)`. Without a transform and a motion
   * nothing happens. Otherwise the joint is swung and clamped, and the
   * transform is read back from the placement under the parent's current
   * transform. Nothing but `e`'s transform and joint angle changes.
   */
  function UpdateAttachment(lib: Libm, w: Rig, e: Entity, elapsedMs: real): (w': Rig)
    requires Hangs(w, e)
    ensures SameFrame(w, w')
    ensures forall x :: x in w.transforms && x != e ==> w'.transforms[x] == w.transforms[x]
    ensures forall x :: x in w.reg.attachments && x != e ==> w'.reg.attachments[x] == w.reg.attachments[x]
    ensures !(e in w.transforms && e in w.motions) ==> w' == w
    ensures e in w.transforms && e in w.motions ==>
      var a := w.reg.attachments[e];
      var a' := w'.reg.attachments[e];
      && a'.movedAngle == Clamped(a, Swing(lib, w.transforms[e], w.motions[e], a, elapsedMs / 1000.0))
      && (0.0 <= a.angleFreedom ==> WithinFreedom(a'))
      && w'.transforms[e].position == Origin(Placement(lib, w.transforms[a.parent], a, a'.movedAngle))
  {
    if e in w.transforms && e in w.motions then
      var a := w.reg.attachments[e];
      var t := w.transforms[e];
      var moved := Clamped(a, Swing(lib, t, w.motions[e], a, elapsedMs / 1000.0));
      var pv := if a.kind == DashingPart then w.motions[a.parent].velocity else Zero;
      var t' := Decompose(lib, t, Placement(lib, w.transforms[a.parent], a, moved), a.kind, pv);
      var a' := a.(movedAngle := moved);
      Rig(w.reg.(attachments := w.reg.attachments[e := a']), w.transforms[e := t'], w.motions)
    else w
  }

  predicate AllHang(w: Rig, es: seq<Entity>)
  {
    forall i :: 0 <= i < |es| ==> Hangs(w, es[i])
  }

  /** The first `k` updates of `step_attachment_movement`, in container order. */
  function SweepTo(lib: Libm, w: Rig, es: seq<Entity>, k: nat, elapsedMs: real): (w': Rig)
    requires k <= |es| && AllHang(w, es)
    ensures SameFrame(w, w') && AllHang(w', es)
  {
    if k == 0 then w
    else
      var prev := SweepTo(lib, w, es, k - 1, elapsedMs);
      assert Hangs(prev, es[k - 1]);
      var w' := UpdateAttachment(lib, prev, es[k - 1], elapsedMs);
      assert AllHang(w', es) by {
        forall i | 0 <= i < |es| ensures Hangs(w', es[i]) {
          assert Hangs(prev, es[i]);
        }
      }
      w'
  }

  /** The first `k` updates leave the transform and joint of an entity that is not among them as they were. */
  lemma {:induction false} SweepLeaves(lib: Libm, w: Rig, es: seq<Entity>, k: nat, elapsedMs: real, x: Entity)
    requires k <= |es| && AllHang(w, es) && x !in es[..k]
    ensures x in w.transforms ==> SweepTo(lib, w, es, k, elapsedMs).transforms[x] == w.transforms[x]
    ensures x in w.reg.attachments ==> SweepTo(lib, w, es, k, elapsedMs).reg.attachments[x] == w.reg.attachments[x]
  {
    if k > 0 {
      assert es[..k] == es[..k - 1] + [es[k - 1]];
      SweepLeaves(lib, w, es, k - 1, elapsedMs, x);
    }
  }

  /**
   * Among the first `k` updates, an entity with a transform and a motion
   * whose joint may move ends within its freedom.
   */
  lemma {:induction false} SweepBounds(lib: Libm, w: Rig, es: seq<Entity>, k: nat, elapsedMs: real, x: Entity)
    requires k <= |es| && AllHang(w, es) && x in es[..k]
    requires x in w.transforms && x in w.motions && 0.0 <= w.reg.attachments[x].angleFreedom
    ensures WithinFreedom(SweepTo(lib, w, es, k, elapsedMs).reg.attachments[x])
  {
    assert es[..k] == es[..k - 1] + [es[k - 1]];
    var prev := SweepTo(lib, w, es, k - 1, elapsedMs);
    if x != es[k - 1] {
      SweepBounds(lib, w, es, k - 1, elapsedMs, x);
    }
  }

  /**
   * `step_attachment_movement`: every attachment in container order. Only
   * attachments change, motions are untouched, and afterwards every
   * attachment that could move sits at rest or within its freedom.
   */
  method StepAttachmentMovement(lib: Libm, w: Rig, elapsedMs: real) returns (w': Rig)
    requires Attachments in w.reg.members && AllHang(w, w.reg.members[Attachments])
    ensures w' == SweepTo(lib, w, w.reg.members[Attachments], |w.reg.members[Attachments]|, elapsedMs)
  {
    var es := w.reg.members[Attachments];
    w' := w;
    for i := 0 to |es|
      invariant w' == SweepTo(lib, w, es, i, elapsedMs)
    {
      w' := UpdateAttachment(lib, w', es[i], elapsedMs);
    }
  }

  /** After the sweep every attachment that has a transform and motion is within its freedom. */
  lemma SweepWithinFreedom(lib: Libm, w: Rig, elapsedMs: real, x: Entity)
    requires Attachments in w.reg.members && AllHang(w, w.reg.members[Attachments])
    requires x in w.reg.members[Attachments] && x in w.transforms && x in w.motions
    requires 0.0 <= w.reg.attachments[x].angleFreedom
    ensures var es := w.reg.members[Attachments];
      WithinFreedom(SweepTo(lib, w, es, |es|, elapsedMs).reg.attachments[x])
  {
    var es := w.reg.members[Attachments];
    assert es[..|es|] == es;
    SweepBounds(lib, w, es, |es|, elapsedMs, x);
  }
}
