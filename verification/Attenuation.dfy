/**
 The narrowing order on caveats: which two constrain the same thing, when one is at least as
 strict as the other, and the check a holder runs before minting a child token.
 */
module Attenuation {
  import opened Wrappers

  import opened Caveats
  import opened Dimensions

  datatype Kind = Scopes | Ceiling | Window | Allowed | Denied | Argument | Depth | Intent | Approval

  datatype Side = Lower | Upper | Both

  /** Operators that constrain the same way; membership and equality are families of one. */
  datatype Family = Above | Below | Exactly(op: ArgOp)

  datatype Slot =
    | Plain(kind: Kind) | PerDimension(dim: Dimension) | PerArgument(path: string, family: Family) | PerSide(side: Side)

  function FamilyOf(op: ArgOp): Family {
    match op
    case Le => Above
    case Lt => Above
    case Ge => Below
    case Gt => Below
    case _ => Exactly(op)
  }

  /** The key under which two caveats are comparable at all. */
  function SlotOf(c: Caveat): (s: Slot) {
    match c
    case BudgetCeiling(d, _) => PerDimension(d)
    case ArgPredicate(path, op, _) => PerArgument(path, FamilyOf(op))
    case TimeWindow(nb, na) =>
      PerSide(if nb.Some? && na.Some? then Both else if nb.Some? then Lower else Upper)
    case ScopeSubset(_) => Plain(Scopes)
    case ToolAllow(_) => Plain(Allowed)
    case ToolDeny(_) => Plain(Denied)
    case DepthLimit(_) => Plain(Depth)
    case IntentBound(_) => Plain(Intent)
    case RequiresApproval(_) => Plain(Approval)
  }

  /** A window with two bounds is two independent claims; everything else is one. */
  function Atoms(c: Caveat): (r: seq<Caveat>) {
    if c.TimeWindow? && c.notBefore.Some? && c.notAfter.Some? then
      [TimeWindow(c.notBefore, None), TimeWindow(None, c.notAfter)]
    else [c]
  }

  /** One-sided bounds compared as sets of permitted values; `closed` bounds include the value. */
  predicate BoundNarrows(cv: real, childClosed: bool, pv: real, parentClosed: bool, upper: bool) {
    if cv == pv then childClosed ==> parentClosed
    else if upper then cv < pv else cv > pv
  }

  predicate ArgNarrows(child: Caveat, parent: Caveat)
    requires child.ArgPredicate? && parent.ArgPredicate? && SlotOf(child) == SlotOf(parent)
    requires Shaped(child) && Shaped(parent)
  {
    match FamilyOf(child.op)
    case Above => BoundNarrows(child.value.scalar.n, child.op == Le, parent.value.scalar.n, parent.op == Le, true)
    case Below => BoundNarrows(child.value.scalar.n, child.op == Ge, parent.value.scalar.n, parent.op == Ge, false)
    case Exactly(op) =>
      if op == In then child.value.members <= parent.value.members
      else if op == NotIn then child.value.members >= parent.value.members
      else child.value == parent.value
  }

  /** The value fits the operator, as `Valid` requires. */
  predicate Shaped(c: Caveat) {
    c.ArgPredicate? ==>
      && (IsMembership(c.op) <==> c.value.Many?)
      && (IsOrdering(c.op) ==> c.value.scalar.Num?)
  }

  datatype Incomparable = Incomparable(child: Slot, parent: Slot)

  /** At least as restrictive; an error, not `false`, when the comparison means nothing. */
  function Narrows(child: Caveat, parent: Caveat): (r: Result<bool, Incomparable>)
    requires Shaped(child) && Shaped(parent)
    ensures r.Err? <==> SlotOf(child) != SlotOf(parent)
  {
    if SlotOf(child) != SlotOf(parent) then Err(Incomparable(SlotOf(child), SlotOf(parent)))
    else Ok(NarrowsInSlot(child, parent))
  }

  predicate NarrowsInSlot(child: Caveat, parent: Caveat)
    requires Shaped(child) && Shaped(parent) && SlotOf(child) == SlotOf(parent)
  {
    match child
    case ScopeSubset(scopes) => scopes <= parent.scopes
    case BudgetCeiling(_, v) => v <= parent.ceiling
    case TimeWindow(nb, na) =>
      && (parent.notBefore.None? || (nb.Some? && nb.value >= parent.notBefore.value))
      && (parent.notAfter.None? || (na.Some? && na.value <= parent.notAfter.value))
    case ToolAllow(tools) => tools <= parent.tools
    case ToolDeny(tools) => tools >= parent.tools
    case ArgPredicate(_, _, _) => ArgNarrows(child, parent)
    case DepthLimit(n) => n <= parent.maxDepth
    case IntentBound(h) => h == parent.intentHash
    case RequiresApproval(scopes) => scopes >= parent.scopes
  }

  // ------------------------------------------------------------------------------------
  // Sound and complete
  // ------------------------------------------------------------------------------------

  /** Whatever the child allows, the parent allows. */
  ghost predicate Implies(child: Caveat, parent: Caveat) {
    forall ctx: Context :: ValidContext(ctx) && Allows(child, ctx) ==> Allows(parent, ctx)
  }

  lemma NarrowsIsSound(child: Caveat, parent: Caveat)
    requires Valid(child) && Valid(parent) && SlotOf(child) == SlotOf(parent)
    requires NarrowsInSlot(child, parent)
    ensures Implies(child, parent)
  {
    forall ctx: Context | ValidContext(ctx) && Allows(child, ctx)
      ensures Allows(parent, ctx)
    {
      if child.ArgPredicate? && child.path in ctx.args {
        assert parent.path == child.path;
        assert Satisfied(ctx.args[child.path], child.op, child.value) == Some(true);
        assert Satisfied(ctx.args[child.path], parent.op, parent.value) == Some(true);
      }
    }
  }

  const NOTHING: map<Dimension, real> := map d | d in EVERY_DIMENSION :: 0.0

  function AnyRequest(): (ctx: Context)
    ensures ValidContext(ctx)
  {
    AllDimensionsListed();
    Context("", NOTHING, 0, "", 0, None, map[])
  }

  /** A value the child's bound admits and the parent's does not. */
  function Separating(child: Caveat, parent: Caveat): (x: real)
    requires child.ArgPredicate? && parent.ArgPredicate? && SlotOf(child) == SlotOf(parent)
    requires IsOrdering(child.op) && Shaped(child) && Shaped(parent)
  {
    if child.op == Le || child.op == Ge then child.value.scalar.n
    else (child.value.scalar.n + parent.value.scalar.n) / 2.0
  }

  /** An argument the child lets through and the parent refuses. */
  lemma ArgSeparated(child: Caveat, parent: Caveat) returns (actual: Scalar)
    requires child.ArgPredicate? && parent.ArgPredicate? && SlotOf(child) == SlotOf(parent)
    requires Valid(child) && Valid(parent) && !ArgNarrows(child, parent)
    ensures Satisfied(actual, child.op, child.value) == Some(true)
    ensures Satisfied(actual, parent.op, parent.value) != Some(true)
  {
    match FamilyOf(child.op)
    case Above => actual := Num(Separating(child, parent));
    case Below => actual := Num(Separating(child, parent));
    case Exactly(op) =>
      if op == In {
        var x :| x in child.value.members && x !in parent.value.members;
        actual := Text(x);
      } else if op == NotIn {
        var x :| x in parent.value.members && x !in child.value.members;
        actual := Text(x);
      } else {
        actual := if op == Eq then child.value.scalar else parent.value.scalar;
      }
  }

  /** The request that tells the two apart, when the child is not narrower. */
  lemma Separated(child: Caveat, parent: Caveat) returns (ctx: Context)
    requires Valid(child) && Valid(parent) && SlotOf(child) == SlotOf(parent)
    requires !NarrowsInSlot(child, parent)
    ensures ValidContext(ctx) && Allows(child, ctx) && !Allows(parent, ctx)
  {
    ctx := AnyRequest();
    match child
    case ScopeSubset(scopes) =>
      var x :| x in scopes && x !in parent.scopes;
      ctx := ctx.(operation := x);
    case BudgetCeiling(d, v) => ctx := ctx.(requested := ctx.requested[d := v]);
    case TimeWindow(nb, na) =>
      if nb.Some? && nb.value < parent.notBefore.value {
        ctx := ctx.(now := nb.value);
      } else if nb.Some? && parent.notAfter.value < nb.value {
        ctx := ctx.(now := nb.value);
      } else {
        ctx := ctx.(now := parent.notAfter.value);
      }
    case ToolAllow(tools) =>
      var x :| x in tools && x !in parent.tools;
      ctx := ctx.(tool := Some(x));
    case ToolDeny(tools) =>
      var x :| x in parent.tools && x !in tools;
      ctx := ctx.(tool := Some(x));
    case ArgPredicate(path, _, _) =>
      var actual := ArgSeparated(child, parent);
      ctx := ctx.(args := map[path := actual]);
    case DepthLimit(n) => ctx := ctx.(depth := n);
    case IntentBound(h) => ctx := ctx.(intent := h);
    case RequiresApproval(scopes) =>
      var x :| x in parent.scopes && x !in scopes;
      ctx := ctx.(operation := x);
  }

  /**
   Within a slot the order is exactly implication: `narrows` holds if and only if every
   request the child allows is allowed by the parent, the three reversed kinds included.
   */
  lemma NarrowsIffImplies(child: Caveat, parent: Caveat)
    requires Valid(child) && Valid(parent) && SlotOf(child) == SlotOf(parent)
    ensures Narrows(child, parent) == Ok(true) <==> Implies(child, parent)
  {
    if NarrowsInSlot(child, parent) {
      NarrowsIsSound(child, parent);
    } else {
      var ctx := Separated(child, parent);
    }
  }

  /** Hence a partial order: reflexive, transitive, and antisymmetric up to equality. */
  lemma NarrowsIsPartialOrder(a: Caveat, b: Caveat, c: Caveat)
    requires Valid(a) && Valid(b) && Valid(c)
    ensures Narrows(a, a) == Ok(true)
    ensures Narrows(a, b) == Ok(true) && Narrows(b, c) == Ok(true) ==> Narrows(a, c) == Ok(true)
    ensures Narrows(a, b) == Ok(true) && Narrows(b, a) == Ok(true) ==> a == b
  {
    NarrowsIffImplies(a, a);
    if Narrows(a, b) == Ok(true) && Narrows(b, c) == Ok(true) {
      NarrowsIffImplies(a, b);
      NarrowsIffImplies(b, c);
      NarrowsIffImplies(a, c);
    }
  }

  // ------------------------------------------------------------------------------------
  // The mint-time check
  // ------------------------------------------------------------------------------------

  function AllAtoms(cs: seq<Caveat>): (r: seq<Caveat>) {
    if cs == [] then [] else AllAtoms(cs[..|cs| - 1]) + Atoms(cs[|cs| - 1])
  }

  ghost predicate Wider(atom: Caveat, ancestor: Caveat)
  {
    Shaped(atom) && Shaped(ancestor) && Narrows(atom, ancestor) == Ok(false)
  }

  /** Every atom of the proposal narrows every comparable atom that already binds. */
  ghost predicate Narrowing(caveats: seq<Caveat>, ancestors: seq<Caveat>) {
    forall a, p :: a in AllAtoms(caveats) && p in AllAtoms(ancestors) ==> !Wider(a, p)
  }

  lemma {:induction false} AtomsShaped(cs: seq<Caveat>)
    requires forall c :: c in cs ==> Shaped(c)
    ensures forall a :: a in AllAtoms(cs) ==> Shaped(a)
  {
    if cs != [] {
      AtomsShaped(cs[..|cs| - 1]);
    }
  }

  lemma AtomsSnoc(cs: seq<Caveat>, i: nat)
    requires i < |cs|
    ensures AllAtoms(cs[..i + 1]) == AllAtoms(cs[..i]) + Atoms(cs[i])
  {
    assert cs[..i + 1][..i] == cs[..i];
  }

  /** The ancestors' atoms, grouped by slot, in chain order. */
  method GroupBySlot(ancestors: seq<Caveat>) returns (bySlot: map<Slot, seq<Caveat>>)
    ensures forall s :: s in bySlot ==> forall p :: p in bySlot[s] <==> p in AllAtoms(ancestors) && SlotOf(p) == s
    ensures forall p :: p in AllAtoms(ancestors) ==> SlotOf(p) in bySlot
  {
    bySlot := map[];
    for i := 0 to |ancestors|
      invariant forall s :: s in bySlot ==> forall p :: p in bySlot[s] <==> p in AllAtoms(ancestors[..i]) && SlotOf(p) == s
      invariant forall p :: p in AllAtoms(ancestors[..i]) ==> SlotOf(p) in bySlot
    {
      var atoms := Atoms(ancestors[i]);
      AtomsSnoc(ancestors, i);
      ghost var before := AllAtoms(ancestors[..i]);
      for j := 0 to |atoms|
        invariant forall s :: s in bySlot ==> forall p :: p in bySlot[s] <==> p in before + atoms[..j] && SlotOf(p) == s
        invariant forall p :: p in before + atoms[..j] ==> SlotOf(p) in bySlot
      {
        var slot := SlotOf(atoms[j]);
        var group := if slot in bySlot then bySlot[slot] else [];
        assert forall p :: p in before + atoms[..j + 1] <==> p in before + atoms[..j] || p == atoms[j];
        bySlot := bySlot[slot := group + [atoms[j]]];
      }
      assert before + atoms[..|atoms|] == before + atoms;
    }
    assert ancestors[..|ancestors|] == ancestors;
  }

  /** The first ancestor of the atom's slot it does not narrow, if there is one. */
  method FirstWider(atom: Caveat, bySlot: map<Slot, seq<Caveat>>) returns (r: Option<Caveat>)
    requires Shaped(atom)
    requires forall s :: s in bySlot ==> forall p :: p in bySlot[s] ==> Shaped(p) && SlotOf(p) == s
    ensures r.Some? ==> SlotOf(atom) in bySlot && r.value in bySlot[SlotOf(atom)] && Wider(atom, r.value)
    ensures r.None? && SlotOf(atom) in bySlot ==> forall p :: p in bySlot[SlotOf(atom)] ==> !Wider(atom, p)
  {
    var group := if SlotOf(atom) in bySlot then bySlot[SlotOf(atom)] else [];
    for k := 0 to |group|
      invariant forall p :: p in group[..k] ==> !Wider(atom, p)
    {
      assert group[k] in bySlot[SlotOf(atom)];
      if !NarrowsInSlot(atom, group[k]) {
        return Some(group[k]);
      }
    }
    assert group[..|group|] == group;
    r := None;
  }

  ghost predicate AllValid(cs: seq<Caveat>) { forall i :: 0 <= i < |cs| ==> Valid(cs[i]) }

  /** Raises, with the pair to blame, exactly when some proposed caveat is wider. */
  method CheckNarrowing(caveats: seq<Caveat>, ancestors: seq<Caveat>) returns (r: Result<(), (Caveat, Caveat)>)
    requires forall c :: c in caveats ==> Shaped(c)
    requires forall c :: c in ancestors ==> Shaped(c)
    ensures r.Ok? <==> Narrowing(caveats, ancestors)
    ensures AllValid(caveats) && AllValid(ancestors) ==> (r.Ok? <==> AllWithin(caveats, ancestors))
    ensures r.Err? ==> r.error.0 in AllAtoms(caveats) && r.error.1 in AllAtoms(ancestors) && Wider(r.error.0, r.error.1)
  {
    if AllValid(caveats) && AllValid(ancestors) {
      NarrowingIffWithin(caveats, ancestors);
    }
    hide AllWithin, AllValid;
    var bySlot := GroupBySlot(ancestors);
    AtomsShaped(caveats);
    AtomsShaped(ancestors);
    for i := 0 to |caveats|
      invariant Narrowing(caveats[..i], ancestors)
    {
      var atoms := Atoms(caveats[i]);
      AtomsSnoc(caveats, i);
      AtomsOfPrefix(caveats, i + 1);
      for j := 0 to |atoms|
        invariant forall a, p :: a in atoms[..j] && p in AllAtoms(ancestors) ==> !Wider(a, p)
      {
        assert atoms[j] in AllAtoms(caveats[..i + 1]);
        var wider := FirstWider(atoms[j], bySlot);
        if wider.Some? {
          return Err((atoms[j], wider.value));
        }
      }
      assert atoms[..|atoms|] == atoms;
    }
    assert caveats[..|caveats|] == caveats;
    r := Ok(());
  }

  // -- what the check means for the caveats themselves ----------------------------------------

  /** Two caveats other than windows that constrain the same thing the same way. */
  predicate SameClaim(c: Caveat, p: Caveat) {
    match c
    case ScopeSubset(_) => p.ScopeSubset?
    case BudgetCeiling(d, _) => p.BudgetCeiling? && p.dim == d
    case TimeWindow(_, _) => false
    case ToolAllow(_) => p.ToolAllow?
    case ToolDeny(_) => p.ToolDeny?
    case ArgPredicate(path, op, _) =>
      && p.ArgPredicate? && p.path == path
      && (p.op == op || {op, p.op} == {Le, Lt} || {op, p.op} == {Ge, Gt})
    case DepthLimit(_) => p.DepthLimit?
    case IntentBound(_) => p.IntentBound?
    case RequiresApproval(_) => p.RequiresApproval?
  }

  /** The child's caveat is within its ancestor's, wherever the two can be compared. */
  ghost predicate Within(c: Caveat, p: Caveat) {
    && (SameClaim(c, p) ==> Implies(c, p))
    && (c.TimeWindow? && p.TimeWindow? ==>
         && (c.notBefore.Some? && p.notBefore.Some? ==> p.notBefore.value <= c.notBefore.value)
         && (c.notAfter.Some? && p.notAfter.Some? ==> c.notAfter.value <= p.notAfter.value))
  }

  lemma SlotsAreClaims(c: Caveat, p: Caveat)
    requires !c.TimeWindow?
    ensures SlotOf(c) == SlotOf(p) <==> SameClaim(c, p)
  {
    if c.ArgPredicate? && p.ArgPredicate? {
      assert {c.op, p.op} == {Le, Lt} ==> c.op in {Le, Lt} && p.op in {Le, Lt};
      assert {c.op, p.op} == {Ge, Gt} ==> c.op in {Ge, Gt} && p.op in {Ge, Gt};
      assert c.op == Le && p.op == Lt ==> {c.op, p.op} == {Le, Lt};
      assert c.op == Lt && p.op == Le ==> {c.op, p.op} == {Le, Lt};
      assert c.op == Ge && p.op == Gt ==> {c.op, p.op} == {Ge, Gt};
      assert c.op == Gt && p.op == Ge ==> {c.op, p.op} == {Ge, Gt};
    }
  }

  ghost predicate AtomsWider(c: Caveat, p: Caveat) {
    exists a, b :: a in Atoms(c) && b in Atoms(p) && Wider(a, b)
  }

  lemma WindowAtoms(c: Caveat, p: Caveat)
    requires Valid(c) && Valid(p) && c.TimeWindow? && p.TimeWindow?
    ensures AtomsWider(c, p) <==> !Within(c, p)
  {
    var cl, cu := TimeWindow(c.notBefore, None), TimeWindow(None, c.notAfter);
    var pl, pu := TimeWindow(p.notBefore, None), TimeWindow(None, p.notAfter);
    assert c.notBefore.Some? ==> cl in Atoms(c);
    assert c.notAfter.Some? ==> cu in Atoms(c);
    assert p.notBefore.Some? ==> pl in Atoms(p);
    assert p.notAfter.Some? ==> pu in Atoms(p);
    assert forall a :: a in Atoms(c) ==> (c.notBefore.Some? && a == cl) || (c.notAfter.Some? && a == cu);
    assert forall b :: b in Atoms(p) ==> (p.notBefore.Some? && b == pl) || (p.notAfter.Some? && b == pu);
    if c.notBefore.Some? && p.notBefore.Some? && c.notBefore.value < p.notBefore.value {
      assert Wider(cl, pl);
    }
    if c.notAfter.Some? && p.notAfter.Some? && p.notAfter.value < c.notAfter.value {
      assert Wider(cu, pu);
    }
  }

  lemma ClaimAtoms(c: Caveat, p: Caveat)
    requires Valid(c) && Valid(p) && !(c.TimeWindow? && p.TimeWindow?)
    ensures AtomsWider(c, p) <==> !Within(c, p)
  {
    if c.TimeWindow? {
      assert forall a :: a in Atoms(c) ==> a.TimeWindow?;
      assert forall a, b :: a in Atoms(c) && b in Atoms(p) ==> SlotOf(a) != SlotOf(b);
    } else if p.TimeWindow? {
      assert forall b :: b in Atoms(p) ==> b.TimeWindow?;
      assert forall a, b :: a in Atoms(c) && b in Atoms(p) ==> SlotOf(a) != SlotOf(b);
    } else {
      assert c in Atoms(c) && p in Atoms(p);
      assert forall a :: a in Atoms(c) ==> a == c;
      assert forall b :: b in Atoms(p) ==> b == p;
      SlotsAreClaims(c, p);
      if SlotOf(c) == SlotOf(p) {
        NarrowsIffImplies(c, p);
      }
    }
  }

  lemma {:induction false} AtomsOf(cs: seq<Caveat>, a: Caveat)
    ensures a in AllAtoms(cs) <==> exists i :: 0 <= i < |cs| && a in Atoms(cs[i])
  {
    if cs != [] {
      AtomsOf(cs[..|cs| - 1], a);
    }
  }

  ghost predicate AllWithin(caveats: seq<Caveat>, ancestors: seq<Caveat>) {
    forall i, j :: 0 <= i < |caveats| && 0 <= j < |ancestors| ==> Within(caveats[i], ancestors[j])
  }

  /** The check passes if and only if each proposed caveat is within each that already binds. */
  lemma NarrowingIffWithin(caveats: seq<Caveat>, ancestors: seq<Caveat>)
    requires forall i :: 0 <= i < |caveats| ==> Valid(caveats[i])
    requires forall j :: 0 <= j < |ancestors| ==> Valid(ancestors[j])
    ensures Narrowing(caveats, ancestors) <==> AllWithin(caveats, ancestors)
  {
    hide Wider, Within, AllAtoms, Atoms, Valid;
    forall i, j | 0 <= i < |caveats| && 0 <= j < |ancestors|
      ensures AtomsWider(caveats[i], ancestors[j]) <==> !Within(caveats[i], ancestors[j])
    {
      if caveats[i].TimeWindow? && ancestors[j].TimeWindow? {
        WindowAtoms(caveats[i], ancestors[j]);
      } else {
        ClaimAtoms(caveats[i], ancestors[j]);
      }
    }
    forall a
      ensures a in AllAtoms(caveats) <==> exists i :: 0 <= i < |caveats| && a in Atoms(caveats[i])
      ensures a in AllAtoms(ancestors) <==> exists i :: 0 <= i < |ancestors| && a in Atoms(ancestors[i])
    {
      AtomsOf(caveats, a);
      AtomsOf(ancestors, a);
    }
  }

  lemma {:induction false} AtomsOfPrefix(cs: seq<Caveat>, n: nat)
    requires n <= |cs|
    ensures forall a :: a in AllAtoms(cs[..n]) ==> a in AllAtoms(cs)
    decreases |cs| - n
  {
    if n == |cs| {
      assert cs[..n] == cs;
    } else {
      AtomsSnoc(cs, n);
      AtomsOfPrefix(cs, n + 1);
    }
  }
}
