/** `TableBody`: the slab with legs and heat-insert sockets.

    `Create` checks that every leg was created, works out the slab's footprint
    from the heat-insert positions padded by the widest leg's radius plus the
    margin, and then builds the solid in a fixed order: the slab, one union per
    (leg, position) pair, and for each (heat insert, position) pair a cut by the
    insert's uncut cylinder followed by a union of its hollowed body, both
    under the same rotation and translation. */
module Table {
  import opened Wrappers
  import opened Csg
  import opened Builtins
  import SemiHollow

  datatype Position = Position(x: real, y: real)

  /** What the assembly reads of one SemiHollowCylinder. */
  datatype Part = Part(cylDiam: real, cylHeight: real, body: Option<Solid>, outerBody: Option<Solid>)

  /** The exceptions `TableBody.create` can raise. */
  datatype Error =
      /** ValueError raised on line 40: some leg's body is still None */
    | LegsNotCreated
      /** ValueError from max() on line 43: there are no top legs */
    | NoLegs
      /** ValueError from min() on line 44: there are no heat-insert positions */
    | NoHeatInsertPositions
      /** ValueError from max() on line 57: there are no heat inserts */
    | NoHeatInserts
      /** AttributeError from `None.rotate` on line 68 or 74: a paired heat
          insert's solid is still None */
    | HeatInsertNotCreated

  function Diams(parts: seq<Part>): seq<real> {
    seq(|parts|, i requires 0 <= i < |parts| => parts[i].cylDiam)
  }

  function Heights(parts: seq<Part>): seq<real> {
    seq(|parts|, i requires 0 <= i < |parts| => parts[i].cylHeight)
  }

  function Xs(ps: seq<Position>): seq<real> {
    seq(|ps|, i requires 0 <= i < |ps| => ps[i].x)
  }

  function Ys(ps: seq<Position>): seq<real> {
    seq(|ps|, i requires 0 <= i < |ps| => ps[i].y)
  }

  /** `all(leg.body for leg in top_legs)`: the generator is scanned from the
      left and stops at the first falsy body; a created body is truthy, None
      is not. */
  predicate AllLegsCreated(legs: seq<Part>): (b: bool)
    ensures b <==> forall i :: 0 <= i < |legs| ==> legs[i].body != None
  {
    legs == [] || (legs[0].body.Some? && AllLegsCreated(legs[1..]))
  }

  predicate InsertCreated(p: Part) {
    p.body.Some? && p.outerBody.Some?
  }

  /** The local dimensions `create` works out before building anything. */
  datatype Layout = Layout(maxLegDiam: real,
                           minX: real, maxX: real, minY: real, maxY: real,
                           width: real, length: real,
                           centreX: real, centreY: real,
                           z: real, thickness: real)

  function Padding(l: Layout, margin: real): real {
    l.maxLegDiam / 2.0 + margin
  }

  /** What the source promises of the dimensions: the widest leg's diameter;
      the bounds are the tightest rectangle around the heat-insert positions,
      padded by that diameter's half plus the margin; width and length span
      the bounds and the centre is their midpoint; z is minus the tallest leg's
      height and the thickness is the tallest heat insert's height. */
  ghost predicate IsLayoutFor(margin: real, legs: seq<Part>, positions: seq<Position>,
                              inserts: seq<Part>, l: Layout)
  {
    var pad := Padding(l, margin);
    (forall i :: 0 <= i < |legs| ==> legs[i].cylDiam <= l.maxLegDiam) &&
    (exists i :: 0 <= i < |legs| && legs[i].cylDiam == l.maxLegDiam) &&
    (forall i :: 0 <= i < |positions| ==>
       l.minX + pad <= positions[i].x <= l.maxX - pad &&
       l.minY + pad <= positions[i].y <= l.maxY - pad) &&
    (exists i :: 0 <= i < |positions| && positions[i].x == l.minX + pad) &&
    (exists i :: 0 <= i < |positions| && positions[i].x == l.maxX - pad) &&
    (exists i :: 0 <= i < |positions| && positions[i].y == l.minY + pad) &&
    (exists i :: 0 <= i < |positions| && positions[i].y == l.maxY - pad) &&
    l.width == l.maxX - l.minX && l.length == l.maxY - l.minY &&
    l.centreX - l.minX == l.maxX - l.centreX &&
    l.centreY - l.minY == l.maxY - l.centreY &&
    (forall i :: 0 <= i < |legs| ==> l.z <= -legs[i].cylHeight) &&
    (exists i :: 0 <= i < |legs| && l.z == -legs[i].cylHeight) &&
    (forall i :: 0 <= i < |inserts| ==> inserts[i].cylHeight <= l.thickness) &&
    (exists i :: 0 <= i < |inserts| && inserts[i].cylHeight == l.thickness)
  }

  /** The footprint, centre, z level and thickness; each `max`/`min` of an
      empty list raises, in the order the source evaluates them. Leg
      positions take no part. */
  function ComputeLayout(margin: real, legs: seq<Part>, positions: seq<Position>,
                         inserts: seq<Part>): (r: Result<Layout, Error>)
    ensures r == Failure(NoLegs) <==> legs == []
    ensures r == Failure(NoHeatInsertPositions) <==> legs != [] && positions == []
    ensures r == Failure(NoHeatInserts) <==> legs != [] && positions != [] && inserts == []
    ensures r.Success? <==> legs != [] && positions != [] && inserts != []
  {
    if legs == [] then Failure(NoLegs)
    else if positions == [] then Failure(NoHeatInsertPositions)
    else
      var maxLegDiam := Max(Diams(legs));
      var minX := Min(Xs(positions)) - maxLegDiam / 2.0 - margin;
      var maxX := Max(Xs(positions)) + maxLegDiam / 2.0 + margin;
      var minY := Min(Ys(positions)) - maxLegDiam / 2.0 - margin;
      var maxY := Max(Ys(positions)) + maxLegDiam / 2.0 + margin;
      var z := -Max(Heights(legs));
      if inserts == [] then Failure(NoHeatInserts)
      else
        var thickness := Max(Heights(inserts));
        var l := Layout(maxLegDiam, minX, maxX, minY, maxY, maxX - minX, maxY - minY,
                        (minX + maxX) / 2.0, (minY + maxY) / 2.0, z, thickness);
        Success(l)
  }

  /** Whenever `ComputeLayout` succeeds, its dimensions meet `IsLayoutFor`. */
  lemma ComputeLayoutMeetsSpec(margin: real, legs: seq<Part>, positions: seq<Position>,
                               inserts: seq<Part>)
    requires ComputeLayout(margin, legs, positions, inserts).Success?
    ensures IsLayoutFor(margin, legs, positions, inserts, ComputeLayout(margin, legs, positions, inserts).value)
  {
    LayoutMeetsSpec(margin, legs, positions, inserts, ComputeLayout(margin, legs, positions, inserts).value);
  }

  /** The dimensions computed by `ComputeLayout` meet `IsLayoutFor`. */
  lemma LayoutMeetsSpec(margin: real, legs: seq<Part>, positions: seq<Position>,
                        inserts: seq<Part>, l: Layout)
    requires legs != [] && positions != [] && inserts != []
    requires l.maxLegDiam == Max(Diams(legs))
    requires l.minX == Min(Xs(positions)) - l.maxLegDiam / 2.0 - margin
    requires l.maxX == Max(Xs(positions)) + l.maxLegDiam / 2.0 + margin
    requires l.minY == Min(Ys(positions)) - l.maxLegDiam / 2.0 - margin
    requires l.maxY == Max(Ys(positions)) + l.maxLegDiam / 2.0 + margin
    requires l.width == l.maxX - l.minX && l.length == l.maxY - l.minY
    requires l.centreX == (l.minX + l.maxX) / 2.0 && l.centreY == (l.minY + l.maxY) / 2.0
    requires l.z == -Max(Heights(legs)) && l.thickness == Max(Heights(inserts))
    ensures IsLayoutFor(margin, legs, positions, inserts, l)
  {
    assert forall i :: 0 <= i < |legs| ==> Diams(legs)[i] == legs[i].cylDiam && Heights(legs)[i] == legs[i].cylHeight;
    assert forall i :: 0 <= i < |inserts| ==> Heights(inserts)[i] == inserts[i].cylHeight;
    assert forall i :: 0 <= i < |positions| ==> Xs(positions)[i] == positions[i].x && Ys(positions)[i] == positions[i].y;
    assert Max(Diams(legs)) in Diams(legs);
    assert Min(Xs(positions)) in Xs(positions) && Max(Xs(positions)) in Xs(positions);
    assert Min(Ys(positions)) in Ys(positions) && Max(Ys(positions)) in Ys(positions);
    assert Max(Heights(legs)) in Heights(legs);
    assert Max(Heights(inserts)) in Heights(inserts);
  }

  /** Width and length are the heat-insert extent plus the widest leg's
      diameter plus twice the margin, and the centre is the midpoint of the
      heat-insert extent. */
  lemma LayoutDimensions(margin: real, legs: seq<Part>, positions: seq<Position>, inserts: seq<Part>)
    requires ComputeLayout(margin, legs, positions, inserts).Success?
    ensures var l := ComputeLayout(margin, legs, positions, inserts).value;
            l.width == (Max(Xs(positions)) - Min(Xs(positions))) + l.maxLegDiam + 2.0 * margin &&
            l.length == (Max(Ys(positions)) - Min(Ys(positions))) + l.maxLegDiam + 2.0 * margin &&
            l.centreX == (Min(Xs(positions)) + Max(Xs(positions))) / 2.0 &&
            l.centreY == (Min(Ys(positions)) + Max(Ys(positions))) / 2.0
  {
    var l := ComputeLayout(margin, legs, positions, inserts).value;
    ComputeLayoutMeetsSpec(margin, legs, positions, inserts);
    var pad := Padding(l, margin);
    var lo, hi := Min(Xs(positions)), Max(Xs(positions));
    var i :| 0 <= i < |positions| && positions[i].x == l.minX + pad;
    var j :| 0 <= j < |positions| && positions[j].x == l.maxX - pad;
    assert Xs(positions)[i] == positions[i].x && Xs(positions)[j] == positions[j].x;
    assert lo == l.minX + pad by {
      assert lo <= Xs(positions)[i];
      assert lo in Xs(positions);
    }
    assert hi == l.maxX - pad by {
      assert hi >= Xs(positions)[j];
      assert hi in Xs(positions);
    }
    var loY, hiY := Min(Ys(positions)), Max(Ys(positions));
    var p :| 0 <= p < |positions| && positions[p].y == l.minY + pad;
    var q :| 0 <= q < |positions| && positions[q].y == l.maxY - pad;
    assert Ys(positions)[p] == positions[p].y && Ys(positions)[q] == positions[q].y;
    assert loY == l.minY + pad by {
      assert loY <= Ys(positions)[p];
      assert loY in Ys(positions);
    }
    assert hiY == l.maxY - pad by {
      assert hiY >= Ys(positions)[q];
      assert hiY in Ys(positions);
    }
  }

  /** `Workplane("XY").box(width, length, thickness).translate((centreX, centreY, z))` */
  function Slab(l: Layout): (s: Solid)
    ensures Enclosure(s) == Some(Extent(Vec3(l.centreX - l.width / 2.0, l.centreY - l.length / 2.0, l.z - l.thickness / 2.0),
                                        Vec3(l.centreX + l.width / 2.0, l.centreY + l.length / 2.0, l.z + l.thickness / 2.0)))
  {
    Translate(Box(l.width, l.length, l.thickness), Vec3(l.centreX, l.centreY, l.z))
  }

  /** The slab covers exactly the computed bounds in x and y and is centred on z. */
  lemma SlabSpansBounds(margin: real, legs: seq<Part>, positions: seq<Position>, inserts: seq<Part>)
    requires ComputeLayout(margin, legs, positions, inserts).Success?
    ensures var l := ComputeLayout(margin, legs, positions, inserts).value;
            Enclosure(Slab(l)) == Some(Extent(Vec3(l.minX, l.minY, l.z - l.thickness / 2.0),
                                              Vec3(l.maxX, l.maxY, l.z + l.thickness / 2.0)))
  {
  }

  /** A leg's body moved to its position and down by its own height. */
  function LegPlacement(leg: Part, p: Position): (s: Solid)
    requires leg.body.Some?
    ensures Enclosure(leg.body.value).Some? ==>
            Enclosure(s) == Some(Shift(Enclosure(leg.body.value).value, Vec3(p.x, p.y, -leg.cylHeight)))
  {
    Translate(leg.body.value, Vec3(p.x, p.y, -leg.cylHeight))
  }

  /** The transform a heat insert's solids go through: a half turn about the
      axis from the origin to (1, 1, 0), then a move to the position at
      height `z + cylHeight / 2`. */
  function InsertPlacement(s: Solid, insert: Part, p: Position, z: real): (r: Solid)
    ensures Enclosure(s).Some? ==>
            Enclosure(r) == Some(Shift(Turned(Enclosure(s).value), Vec3(p.x, p.y, z + insert.cylHeight / 2.0)))
  {
    Translate(Rotate(s, Origin, Diagonal, 180.0), Vec3(p.x, p.y, z + insert.cylHeight / 2.0))
  }

  /** The first loop: one union per (leg, position) pair, in order. */
  function PlaceLegs(acc: Solid, pairs: seq<(Part, Position)>): (r: Solid)
    requires forall i :: 0 <= i < |pairs| ==> pairs[i].0.body.Some?
    ensures |Steps(r)| == |Steps(acc)| + |pairs|
    decreases |pairs|
  {
    if pairs == [] then acc
    else
      var n := |pairs| - 1;
      Union(PlaceLegs(acc, pairs[..n]), LegPlacement(pairs[n].0, pairs[n].1))
  }

  /** The second loop: per (insert, position) pair a cut by the placed outer
      cylinder, then a union of the placed hollowed body. It fails at the first
      pair whose insert was never created, and only then. */
  function PlaceInserts(acc: Solid, pairs: seq<(Part, Position)>, z: real): (r: Result<Solid, Error>)
    ensures r.Success? <==> forall j :: 0 <= j < |pairs| ==> InsertCreated(pairs[j].0)
    ensures r.Failure? ==> r.error == HeatInsertNotCreated
    decreases |pairs|
  {
    if pairs == [] then Success(acc)
    else
      var n := |pairs| - 1;
      var (insert, p) := pairs[n];
      match PlaceInserts(acc, pairs[..n], z)
      case Failure(e) => Failure(e)
      case Success(s) =>
        if insert.outerBody.None? then Failure(HeatInsertNotCreated)
        else
          var cut := Cut(s, InsertPlacement(insert.outerBody.value, insert, p, z));
          if insert.body.None? then Failure(HeatInsertNotCreated)
          else Success(Union(cut, InsertPlacement(insert.body.value, insert, p, z)))
  }

  /** The whole of `TableBody.create` as a function of what it reads. */
  function Assemble(margin: real, legs: seq<Part>, legPositions: seq<Position>,
                    inserts: seq<Part>, insertPositions: seq<Position>): (r: Result<Solid, Error>)
    ensures r.Success? ==> AllLegsCreated(legs) && legs != [] && insertPositions != [] && inserts != []
    ensures r.Success? ==> forall j :: 0 <= j < |inserts| && j < |insertPositions| ==> InsertCreated(inserts[j])
  {
    if !AllLegsCreated(legs) then Failure(LegsNotCreated)
    else
      match ComputeLayout(margin, legs, insertPositions, inserts)
      case Failure(e) => Failure(e)
      case Success(l) =>
        var insertPairs := Zip(inserts, insertPositions);
        assert forall j :: 0 <= j < |insertPairs| ==> insertPairs[j].0 == inserts[j];
        PlaceInserts(PlaceLegs(Slab(l), Zip(legs, legPositions)), insertPairs, l.z)
  }

  /** Which exception `create` raises, in the order it checks: the legs first,
      before any dimension is computed or any solid built; then the empty
      lists; then, inside the second loop, an uncreated paired heat insert.
      Otherwise it succeeds. */
  lemma AssembleOutcome(margin: real, legs: seq<Part>, legPositions: seq<Position>,
                        inserts: seq<Part>, insertPositions: seq<Position>)
    ensures var r := Assemble(margin, legs, legPositions, inserts, insertPositions);
            (r == Failure(LegsNotCreated) <==> !AllLegsCreated(legs)) &&
            (r == Failure(NoLegs) <==> AllLegsCreated(legs) && legs == []) &&
            (r == Failure(NoHeatInsertPositions) <==>
               AllLegsCreated(legs) && legs != [] && insertPositions == []) &&
            (r == Failure(NoHeatInserts) <==>
               AllLegsCreated(legs) && legs != [] && insertPositions != [] && inserts == []) &&
            (r == Failure(HeatInsertNotCreated) <==>
               AllLegsCreated(legs) && legs != [] && insertPositions != [] && inserts != [] &&
               exists j :: 0 <= j < |inserts| && j < |insertPositions| && !InsertCreated(inserts[j])) &&
            (r.Success? <==>
               AllLegsCreated(legs) && legs != [] && insertPositions != [] && inserts != [] &&
               forall j :: 0 <= j < |inserts| && j < |insertPositions| ==> InsertCreated(inserts[j]))
  {
    if AllLegsCreated(legs) && legs != [] && insertPositions != [] && inserts != [] {
      var l := ComputeLayout(margin, legs, insertPositions, inserts).value;
      var insertPairs := Zip(inserts, insertPositions);
      var r := PlaceInserts(PlaceLegs(Slab(l), Zip(legs, legPositions)), insertPairs, l.z);
      assert Assemble(margin, legs, legPositions, inserts, insertPositions) == r;
      assert forall j :: 0 <= j < |insertPairs| ==> insertPairs[j].0 == inserts[j];
      assert r.Success? <==> forall j :: 0 <= j < |insertPairs| ==> InsertCreated(insertPairs[j].0);
    }
  }

  /** The construction history of an accumulated solid, read back from its
      left spine: the starting solid, then each union or cut in order. */
  datatype Step = Start(solid: Solid) | UnionWith(part: Solid) | CutWith(tool: Solid)

  function Steps(s: Solid): seq<Step> {
    match s
    case Union(base, part) => Steps(base) + [UnionWith(part)]
    case Cut(base, tool) => Steps(base) + [CutWith(tool)]
    case _ => [Start(s)]
  }

  /** From index `k` on, `s` holds one union per (leg, position) pair, in order. */
  ghost predicate LegStepsAt(s: seq<Step>, k: nat, pairs: seq<(Part, Position)>)
    requires forall i :: 0 <= i < |pairs| ==> pairs[i].0.body.Some?
  {
    k + |pairs| <= |s| &&
    forall i :: 0 <= i < |pairs| ==> s[k + i] == UnionWith(LegPlacement(pairs[i].0, pairs[i].1))
  }

  /** From index `k` on, `s` holds for each (heat insert, position) pair, in
      order, a cut by the placed outer cylinder followed by a union of the
      placed hollowed body, both under the same transform. */
  ghost predicate InsertStepsAt(s: seq<Step>, k: nat, pairs: seq<(Part, Position)>, z: real) {
    k + 2 * |pairs| <= |s| &&
    forall j :: 0 <= j < |pairs| ==>
      InsertCreated(pairs[j].0) &&
      s[k + 2 * j] == CutWith(InsertPlacement(pairs[j].0.outerBody.value, pairs[j].0, pairs[j].1, z)) &&
      s[k + 2 * j + 1] == UnionWith(InsertPlacement(pairs[j].0.body.value, pairs[j].0, pairs[j].1, z))
  }

  lemma {:induction false} PlaceLegsSteps(acc: Solid, pairs: seq<(Part, Position)>)
    requires forall i :: 0 <= i < |pairs| ==> pairs[i].0.body.Some?
    ensures var s := Steps(PlaceLegs(acc, pairs));
            |s| == |Steps(acc)| + |pairs| &&
            s[..|Steps(acc)|] == Steps(acc) &&
            LegStepsAt(s, |Steps(acc)|, pairs)
    decreases |pairs|
  {
    if pairs != [] {
      var n := |pairs| - 1;
      PlaceLegsSteps(acc, pairs[..n]);
      var prev := Steps(PlaceLegs(acc, pairs[..n]));
      assert Steps(PlaceLegs(acc, pairs)) == prev + [UnionWith(LegPlacement(pairs[n].0, pairs[n].1))];
    }
  }

  lemma {:induction false} PlaceInsertsSteps(acc: Solid, pairs: seq<(Part, Position)>, z: real)
    requires PlaceInserts(acc, pairs, z).Success?
    ensures var s := Steps(PlaceInserts(acc, pairs, z).value);
            |s| == |Steps(acc)| + 2 * |pairs| &&
            s[..|Steps(acc)|] == Steps(acc) &&
            InsertStepsAt(s, |Steps(acc)|, pairs, z)
    decreases |pairs|
  {
    if pairs != [] {
      var n := |pairs| - 1;
      PlaceInsertsSteps(acc, pairs[..n], z);
      var prev := Steps(PlaceInserts(acc, pairs[..n], z).value);
      var (insert, p) := pairs[n];
      var s := Steps(PlaceInserts(acc, pairs, z).value);
      assert s == prev + [CutWith(InsertPlacement(insert.outerBody.value, insert, p, z)),
                          UnionWith(InsertPlacement(insert.body.value, insert, p, z))];
      assert s[..|Steps(acc)|] == prev[..|Steps(acc)|];
      InsertStepsExtend(prev, s, |Steps(acc)|, pairs, z);
    }
  }

  /** Two more steps for one more insert extend `InsertStepsAt` by that insert. */
  lemma InsertStepsExtend(prev: seq<Step>, s: seq<Step>, k: nat, pairs: seq<(Part, Position)>, z: real)
    requires |pairs| > 0 && InsertCreated(pairs[|pairs| - 1].0)
    requires k + 2 * (|pairs| - 1) == |prev|
    requires InsertStepsAt(prev, k, pairs[..|pairs| - 1], z)
    requires var (insert, p) := pairs[|pairs| - 1];
             s == prev + [CutWith(InsertPlacement(insert.outerBody.value, insert, p, z)),
                          UnionWith(InsertPlacement(insert.body.value, insert, p, z))]
    ensures InsertStepsAt(s, k, pairs, z)
  {
    var n := |pairs| - 1;
    forall j | 0 <= j < n
      ensures InsertCreated(pairs[j].0) &&
              s[k + 2 * j] == CutWith(InsertPlacement(pairs[j].0.outerBody.value, pairs[j].0, pairs[j].1, z)) &&
              s[k + 2 * j + 1] == UnionWith(InsertPlacement(pairs[j].0.body.value, pairs[j].0, pairs[j].1, z))
    {
      assert pairs[..n][j] == pairs[j];
      assert s[k + 2 * j] == prev[k + 2 * j] && s[k + 2 * j + 1] == prev[k + 2 * j + 1];
    }
  }

  /** The steps of both loops run from a starting solid. */
  lemma PlanSteps(start: Solid, legPairs: seq<(Part, Position)>, insertPairs: seq<(Part, Position)>, z: real)
    requires Steps(start) == [Start(start)]
    requires forall i :: 0 <= i < |legPairs| ==> legPairs[i].0.body.Some?
    requires PlaceInserts(PlaceLegs(start, legPairs), insertPairs, z).Success?
    ensures var s := Steps(PlaceInserts(PlaceLegs(start, legPairs), insertPairs, z).value);
            |s| == 1 + |legPairs| + 2 * |insertPairs| &&
            s[0] == Start(start) &&
            LegStepsAt(s, 1, legPairs) &&
            InsertStepsAt(s, 1 + |legPairs|, insertPairs, z)
  {
    var withLegs := PlaceLegs(start, legPairs);
    PlaceLegsSteps(start, legPairs);
    var before := Steps(withLegs);
    PlaceInsertsSteps(withLegs, insertPairs, z);
    var s := Steps(PlaceInserts(withLegs, insertPairs, z).value);
    assert s[..1 + |legPairs|] == before;
    assert s[0] == before[0];
    forall i | 0 <= i < |legPairs|
      ensures s[1 + i] == UnionWith(LegPlacement(legPairs[i].0, legPairs[i].1))
    {
      assert s[1 + i] == before[1 + i];
    }
  }

  /** The order of the build: the slab first, then one union per zipped
      (leg, position) pair, then per zipped (heat insert, position) pair a cut
      by the placed outer cylinder and a union of the placed hollowed body,
      under the same transform. */
  lemma AssemblySteps(margin: real, legs: seq<Part>, legPositions: seq<Position>,
                      inserts: seq<Part>, insertPositions: seq<Position>)
    requires Assemble(margin, legs, legPositions, inserts, insertPositions).Success?
    ensures var s := Steps(Assemble(margin, legs, legPositions, inserts, insertPositions).value);
            var l := ComputeLayout(margin, legs, insertPositions, inserts).value;
            var legPairs := Zip(legs, legPositions);
            var insertPairs := Zip(inserts, insertPositions);
            |s| == 1 + |legPairs| + 2 * |insertPairs| &&
            s[0] == Start(Slab(l)) &&
            LegStepsAt(s, 1, legPairs) &&
            InsertStepsAt(s, 1 + |legPairs|, insertPairs, l.z)
  {
    var l := ComputeLayout(margin, legs, insertPositions, inserts).value;
    assert Assemble(margin, legs, legPositions, inserts, insertPositions)
        == PlaceInserts(PlaceLegs(Slab(l), Zip(legs, legPositions)), Zip(inserts, insertPositions), l.z);
    PlanSteps(Slab(l), Zip(legs, legPositions), Zip(inserts, insertPositions), l.z);
  }

  /** Extra list entries are dropped: the build has one step for the slab, one
      per leg up to the shorter of the leg lists, and two per heat insert up to
      the shorter of the heat-insert lists. */
  lemma AssemblyStepCount(margin: real, legs: seq<Part>, legPositions: seq<Position>,
                          inserts: seq<Part>, insertPositions: seq<Position>)
    requires Assemble(margin, legs, legPositions, inserts, insertPositions).Success?
    ensures var s := Steps(Assemble(margin, legs, legPositions, inserts, insertPositions).value);
            var nLegs := if |legs| < |legPositions| then |legs| else |legPositions|;
            var nInserts := if |inserts| < |insertPositions| then |inserts| else |insertPositions|;
            |s| == 1 + nLegs + 2 * nInserts
  {
    AssemblySteps(margin, legs, legPositions, inserts, insertPositions);
  }

  /** Where a created leg ends up: centred on its position, from z = -cylHeight
      up to z = 0, with its hole opening at z = 0. */
  lemma LegPlacementEnclosure(leg: Part, p: Position, holeDiam: real, holeDepth: real)
    requires leg.body == Some(SemiHollow.Hollowed(leg.cylDiam, holeDiam, holeDepth, leg.cylHeight))
    ensures Enclosure(LegPlacement(leg, p)) ==
            Some(Extent(Vec3(p.x - leg.cylDiam / 2.0, p.y - leg.cylDiam / 2.0, -leg.cylHeight),
                        Vec3(p.x + leg.cylDiam / 2.0, p.y + leg.cylDiam / 2.0, 0.0)))
    ensures var hole := Enclosure(Translate(SemiHollow.HoleTool(holeDiam, holeDepth, leg.cylHeight),
                                            Vec3(p.x, p.y, -leg.cylHeight))).value;
            hole.lo.z == -holeDepth && hole.hi.z == 0.0
  {
  }

  /** Where a created heat insert's cutter and body end up: centred on the
      position and on the plane z, spanning its height; the half turn puts
      its hole at the lower face, from z - cylHeight / 2 up by holeDepth. */
  lemma InsertPlacementEnclosure(insert: Part, p: Position, z: real, holeDiam: real, holeDepth: real)
    requires insert.outerBody == Some(SemiHollow.BaseCylinder(insert.cylDiam, insert.cylHeight))
    requires insert.body == Some(Cut(insert.outerBody.value, SemiHollow.HoleTool(holeDiam, holeDepth, insert.cylHeight)))
    ensures var r, h := insert.cylDiam / 2.0, insert.cylHeight;
            var e := Extent(Vec3(p.x - r, p.y - r, z - h / 2.0), Vec3(p.x + r, p.y + r, z + h / 2.0));
            Enclosure(InsertPlacement(insert.outerBody.value, insert, p, z)) == Some(e) &&
            Enclosure(InsertPlacement(insert.body.value, insert, p, z)) == Some(e)
    ensures var r, h := holeDiam / 2.0, insert.cylHeight;
            Enclosure(InsertPlacement(SemiHollow.HoleTool(holeDiam, holeDepth, h), insert, p, z)) ==
            Some(Extent(Vec3(p.x - r, p.y - r, z - h / 2.0), Vec3(p.x + r, p.y + r, z - h / 2.0 + holeDepth)))
  {
    var outer := insert.outerBody.value;
    var hole := SemiHollow.HoleTool(holeDiam, holeDepth, insert.cylHeight);
    assert Enclosure(Rotate(outer, Origin, Diagonal, 180.0)) == Some(Turned(Enclosure(outer).value));
    assert Enclosure(Rotate(Cut(outer, hole), Origin, Diagonal, 180.0)) == Some(Turned(Enclosure(outer).value));
    assert Enclosure(Rotate(hole, Origin, Diagonal, 180.0)) == Some(Turned(Enclosure(hole).value));
  }

  /** Every paired heat insert's cutter is centred on the slab's mid-plane
      and no taller than the slab, which spans z - thickness / 2 to
      z + thickness / 2; the tallest insert reaches both faces. */
  lemma InsertsWithinSlab(margin: real, legs: seq<Part>,
                          inserts: seq<Part>, insertPositions: seq<Position>, j: nat)
    requires ComputeLayout(margin, legs, insertPositions, inserts).Success?
    requires j < |inserts| && j < |insertPositions|
    requires inserts[j].outerBody == Some(SemiHollow.BaseCylinder(inserts[j].cylDiam, inserts[j].cylHeight))
    ensures var l := ComputeLayout(margin, legs, insertPositions, inserts).value;
            var p, r, h := insertPositions[j], inserts[j].cylDiam / 2.0, inserts[j].cylHeight;
            Enclosure(InsertPlacement(inserts[j].outerBody.value, inserts[j], p, l.z)) ==
              Some(Extent(Vec3(p.x - r, p.y - r, l.z - h / 2.0), Vec3(p.x + r, p.y + r, l.z + h / 2.0))) &&
            l.z - l.thickness / 2.0 <= l.z - h / 2.0 && l.z + h / 2.0 <= l.z + l.thickness / 2.0
  {
    var l := ComputeLayout(margin, legs, insertPositions, inserts).value;
    ComputeLayoutMeetsSpec(margin, legs, insertPositions, inserts);
    assert inserts[j].cylHeight <= l.thickness;
    var outer := inserts[j].outerBody.value;
    assert Enclosure(Rotate(outer, Origin, Diagonal, 180.0)) == Some(Turned(Enclosure(outer).value));
  }

  predicate WithinXY(inner: Extent, outer: Extent) {
    outer.lo.x <= inner.lo.x && inner.hi.x <= outer.hi.x &&
    outer.lo.y <= inner.lo.y && inner.hi.y <= outer.hi.y
  }

  predicate SameXY(a: Extent, b: Extent) {
    a.lo.x == b.lo.x && a.hi.x == b.hi.x && a.lo.y == b.lo.y && a.hi.y == b.hi.y
  }

  /** The placed leg of a pair lies within `f` in x and y. */
  predicate LegWithin(pair: (Part, Position), f: Extent) {
    pair.0.body.Some? &&
    Enclosure(LegPlacement(pair.0, pair.1)).Some? &&
    WithinXY(Enclosure(LegPlacement(pair.0, pair.1)).value, f)
  }

  /** The placed hollowed body of a pair lies within `f` in x and y. */
  predicate InsertWithin(pair: (Part, Position), z: real, f: Extent) {
    pair.0.body.Some? &&
    Enclosure(InsertPlacement(pair.0.body.value, pair.0, pair.1, z)).Some? &&
    WithinXY(Enclosure(InsertPlacement(pair.0.body.value, pair.0, pair.1, z)).value, f)
  }

  lemma {:induction false} PlaceLegsFootprint(acc: Solid, pairs: seq<(Part, Position)>, f: Extent)
    requires forall i :: 0 <= i < |pairs| ==> pairs[i].0.body.Some? && LegWithin(pairs[i], f)
    requires Enclosure(acc).Some? && SameXY(Enclosure(acc).value, f)
    ensures Enclosure(PlaceLegs(acc, pairs)).Some? && SameXY(Enclosure(PlaceLegs(acc, pairs)).value, f)
    decreases |pairs|
  {
    if pairs != [] {
      var n := |pairs| - 1;
      assert forall i :: 0 <= i < n ==> pairs[..n][i] == pairs[i];
      PlaceLegsFootprint(acc, pairs[..n], f);
      assert LegWithin(pairs[n], f);
    }
  }

  lemma {:induction false} PlaceInsertsFootprint(acc: Solid, pairs: seq<(Part, Position)>, z: real, f: Extent)
    requires PlaceInserts(acc, pairs, z).Success?
    requires forall j :: 0 <= j < |pairs| ==> InsertWithin(pairs[j], z, f)
    requires Enclosure(acc).Some? && SameXY(Enclosure(acc).value, f)
    ensures Enclosure(PlaceInserts(acc, pairs, z).value).Some?
    ensures SameXY(Enclosure(PlaceInserts(acc, pairs, z).value).value, f)
    decreases |pairs|
  {
    if pairs != [] {
      var n := |pairs| - 1;
      assert forall j :: 0 <= j < n ==> pairs[..n][j] == pairs[j];
      PlaceInsertsFootprint(acc, pairs[..n], z, f);
      assert InsertWithin(pairs[n], z, f);
    }
  }

  /** When every paired leg and heat insert lies within the slab's footprint,
      the finished solid's x and y extent is exactly that footprint: the
      heat-insert rectangle padded by half the widest leg plus the margin. */
  lemma AssemblyFootprint(margin: real, legs: seq<Part>, legPositions: seq<Position>,
                          inserts: seq<Part>, insertPositions: seq<Position>)
    requires Assemble(margin, legs, legPositions, inserts, insertPositions).Success?
    requires var l := ComputeLayout(margin, legs, insertPositions, inserts).value;
             var f := Enclosure(Slab(l)).value;
             (forall i :: 0 <= i < |Zip(legs, legPositions)| ==> LegWithin(Zip(legs, legPositions)[i], f)) &&
             (forall j :: 0 <= j < |Zip(inserts, insertPositions)| ==> InsertWithin(Zip(inserts, insertPositions)[j], l.z, f))
    ensures var l := ComputeLayout(margin, legs, insertPositions, inserts).value;
            var e := Enclosure(Assemble(margin, legs, legPositions, inserts, insertPositions).value);
            e.Some? && e.value.lo.x == l.minX && e.value.hi.x == l.maxX &&
            e.value.lo.y == l.minY && e.value.hi.y == l.maxY
  {
    var l := ComputeLayout(margin, legs, insertPositions, inserts).value;
    var f := Enclosure(Slab(l)).value;
    SlabSpansBounds(margin, legs, insertPositions, inserts);
    assert Assemble(margin, legs, legPositions, inserts, insertPositions)
        == PlaceInserts(PlaceLegs(Slab(l), Zip(legs, legPositions)), Zip(inserts, insertPositions), l.z);
    PlaceLegsFootprint(Slab(l), Zip(legs, legPositions), f);
    PlaceInsertsFootprint(PlaceLegs(Slab(l), Zip(legs, legPositions)), Zip(inserts, insertPositions), l.z, f);
  }

  /** One more turn of the leg loop. */
  lemma PlaceLegsNext(acc: Solid, pairs: seq<(Part, Position)>, i: nat)
    requires forall k :: 0 <= k < |pairs| ==> pairs[k].0.body.Some?
    requires i < |pairs|
    ensures PlaceLegs(acc, pairs[..i + 1]) == Union(PlaceLegs(acc, pairs[..i]), LegPlacement(pairs[i].0, pairs[i].1))
  {
    assert pairs[..i + 1][..i] == pairs[..i];
  }

  /** One more turn of the heat-insert loop. */
  lemma PlaceInsertsNext(acc: Solid, pairs: seq<(Part, Position)>, i: nat, z: real, s: Solid)
    requires i < |pairs|
    requires PlaceInserts(acc, pairs[..i], z) == Success(s)
    ensures var (insert, p) := pairs[i];
            PlaceInserts(acc, pairs[..i + 1], z) ==
              if !InsertCreated(insert) then Failure(HeatInsertNotCreated)
              else Success(Union(Cut(s, InsertPlacement(insert.outerBody.value, insert, p, z)),
                                 InsertPlacement(insert.body.value, insert, p, z)))
  {
    assert pairs[..i + 1][..i] == pairs[..i];
  }

  /** The loop stops at the first pair whose insert was never created. */
  lemma PlaceInsertsFailsAt(acc: Solid, pairs: seq<(Part, Position)>, i: nat, z: real)
    requires i < |pairs| && !InsertCreated(pairs[i].0)
    ensures PlaceInserts(acc, pairs, z) == Failure(HeatInsertNotCreated)
  {
  }

  lemma AssembleUnfold(margin: real, legs: seq<Part>, legPositions: seq<Position>,
                       inserts: seq<Part>, insertPositions: seq<Position>)
    requires AllLegsCreated(legs)
    requires ComputeLayout(margin, legs, insertPositions, inserts).Success?
    ensures var l := ComputeLayout(margin, legs, insertPositions, inserts).value;
            Assemble(margin, legs, legPositions, inserts, insertPositions) ==
            PlaceInserts(PlaceLegs(Slab(l), Zip(legs, legPositions)), Zip(inserts, insertPositions), l.z)
  {
  }

  /** The leg loop of `create`: each leg, sunk by its own height, is unioned
      onto the solid at its position, pairing legs with positions as `zip` does. */
  method AddLegs(start: Solid, legs: seq<Part>, positions: seq<Position>) returns (s: Solid)
    requires AllLegsCreated(legs)
    ensures s == PlaceLegs(start, Zip(legs, positions))
  {
    ghost var pairs := Zip(legs, positions);
    s := start;
    var i := 0;
    while i < |legs| && i < |positions|
      invariant 0 <= i <= |pairs|
      invariant s == PlaceLegs(start, pairs[..i])
    {
      var leg, p := legs[i], positions[i];
      PlaceLegsNext(start, pairs, i);
      s := Union(s, Translate(leg.body.value, Vec3(p.x, p.y, -leg.cylHeight)));
      i := i + 1;
    }
    assert pairs[..i] == pairs;
  }

  /** The heat-insert loop of `create`: each insert is turned upside down, its
      outer cylinder cut from the solid and its hollow body unioned back; an
      insert that was never created stops the loop with an exception. */
  method AddInserts(start: Solid, inserts: seq<Part>, positions: seq<Position>, z: real)
    returns (r: Result<Solid, Error>)
    ensures r == PlaceInserts(start, Zip(inserts, positions), z)
  {
    ghost var pairs := Zip(inserts, positions);
    var s := start;
    var j := 0;
    while j < |inserts| && j < |positions|
      invariant 0 <= j <= |pairs|
      invariant PlaceInserts(start, pairs[..j], z) == Success(s)
    {
      var insert, p := inserts[j], positions[j];
      PlaceInsertsNext(start, pairs, j, z, s);
      if insert.outerBody.None? {
        PlaceInsertsFailsAt(start, pairs, j, z);
        return Failure(HeatInsertNotCreated);
      }
      s := Cut(s, Translate(Rotate(insert.outerBody.value, Origin, Diagonal, 180.0),
                            Vec3(p.x, p.y, z + insert.cylHeight / 2.0)));
      if insert.body.None? {
        PlaceInsertsFailsAt(start, pairs, j, z);
        return Failure(HeatInsertNotCreated);
      }
      s := Union(s, Translate(Rotate(insert.body.value, Origin, Diagonal, 180.0),
                              Vec3(p.x, p.y, z + insert.cylHeight / 2.0)));
      j := j + 1;
    }
    assert pairs[..j] == pairs;
    r := Success(s);
  }

  /** What `create` reads of a SemiHollowCylinder. */
  function View(c: SemiHollow.SemiHollowCylinder): (p: Part)
    reads c
    ensures p.cylDiam == c.cylDiam && p.cylHeight == c.cylHeight
    ensures p.body == c.body && p.outerBody == c.outerBody
  {
    Part(c.cylDiam, c.cylHeight, c.body, c.outerBody)
  }

  function Views(cs: seq<SemiHollow.SemiHollowCylinder>): (ps: seq<Part>)
    reads cs
    ensures |ps| == |cs|
  {
    seq(|cs|, i reads cs requires 0 <= i < |cs| => View(cs[i]))
  }

  class TableBody {
    const marginHoleWall: real
    const topLegs: seq<SemiHollow.SemiHollowCylinder>
    const legPositions: seq<Position>
    const heatInserts: seq<SemiHollow.SemiHollowCylinder>
    const heatInsertPositions: seq<Position>
    /** The finished solid; None until `Create` succeeds. */
    var surface: Option<Solid>

    constructor (margin: real,
                 topLegs: seq<SemiHollow.SemiHollowCylinder>, legPositions: seq<Position>,
                 heatInserts: seq<SemiHollow.SemiHollowCylinder>, heatInsertPositions: seq<Position>)
      ensures marginHoleWall == margin
      ensures this.topLegs == topLegs && this.legPositions == legPositions
      ensures this.heatInserts == heatInserts && this.heatInsertPositions == heatInsertPositions
      ensures surface == None
    {
      marginHoleWall := margin;
      this.topLegs := topLegs;
      this.legPositions := legPositions;
      this.heatInserts := heatInserts;
      this.heatInsertPositions := heatInsertPositions;
      surface := None;
    }

    /** Builds the table: the result is `Assemble` of what the legs and heat
        inserts hold; on success it is stored in `surface`, on an exception
        `surface` keeps its old value. */
    method Create() returns (r: Result<Solid, Error>)
      modifies this
      ensures r == Assemble(marginHoleWall, Views(topLegs), legPositions, Views(heatInserts), heatInsertPositions)
      ensures surface == if r.Success? then Some(r.value) else old(surface)
    {
      var legs := Views(topLegs);
      if !AllLegsCreated(legs) {
        return Failure(LegsNotCreated);
      }
      var inserts := Views(heatInserts);
      var layout := ComputeLayout(marginHoleWall, legs, heatInsertPositions, inserts);
      if layout.Failure? {
        return Failure(layout.error);
      }
      var l := layout.value;
      AssembleUnfold(marginHoleWall, legs, legPositions, inserts, heatInsertPositions);
      var withLegs := AddLegs(Slab(l), legs, legPositions);
      r := AddInserts(withLegs, inserts, heatInsertPositions, l.z);
      if r.Success? {
        surface := Some(r.value);
      }
    }
  }
}
