/** The script's own example: three legs of diameter 10 and height 20 with
    5 by 5 holes, four heat inserts of diameter 5 and height 5 with 2.5 by
    2.5 holes, a margin of 5, legs at (30, 30), (30, 70), (70, 30) and heat
    inserts at the corners of the 100 by 100 square. */
module BracketExample {
  import opened Wrappers
  import opened Csg
  import opened Builtins
  import SemiHollow
  import opened Table

  const Margin: real := 5.0
  const LegPositions: seq<Position> := [Position(30.0, 30.0), Position(30.0, 70.0), Position(70.0, 30.0)]
  const InsertPositions: seq<Position> :=
    [Position(0.0, 0.0), Position(0.0, 100.0), Position(100.0, 0.0), Position(100.0, 100.0)]

  /** What a created SemiHollowCylinder holds. */
  function CreatedPart(cylDiam: real, holeDiam: real, holeDepth: real, cylHeight: real): Part {
    Part(cylDiam, cylHeight,
         Some(SemiHollow.Hollowed(cylDiam, holeDiam, holeDepth, cylHeight)),
         Some(SemiHollow.BaseCylinder(cylDiam, cylHeight)))
  }

  function LegPart(): Part { CreatedPart(10.0, 5.0, 5.0, 20.0) }
  function InsertPart(): Part { CreatedPart(5.0, 2.5, 2.5, 5.0) }

  /** Three created legs and four created heat inserts of the example's sizes. */
  predicate ExampleParts(legs: seq<Part>, inserts: seq<Part>) {
    |legs| == 3 && (forall i :: 0 <= i < |legs| ==> legs[i] == LegPart()) &&
    |inserts| == 4 && (forall j :: 0 <= j < |inserts| ==> inserts[j] == InsertPart())
  }

  /** The example's dimensions: bounds -10 to 110 both ways (the insert
      corners padded by the leg radius 5 plus the margin 5), so a 120 by 120
      slab centred at (50, 50), at z = -20 and 5 thick. */
  lemma ExampleLayout(legs: seq<Part>, inserts: seq<Part>)
    requires ExampleParts(legs, inserts)
    ensures ComputeLayout(Margin, legs, InsertPositions, inserts) ==
            Success(Layout(10.0, -10.0, 110.0, -10.0, 110.0, 120.0, 120.0, 50.0, 50.0, -20.0, 5.0))
  {
    PartMaxima(legs, inserts);
    CornerBounds();
  }

  lemma PartMaxima(legs: seq<Part>, inserts: seq<Part>)
    requires ExampleParts(legs, inserts)
    ensures Max(Diams(legs)) == 10.0 && Max(Heights(legs)) == 20.0 && Max(Heights(inserts)) == 5.0
  {
    var diams, legHeights, insertHeights := Diams(legs), Heights(legs), Heights(inserts);
    assert forall i :: 0 <= i < 3 ==> diams[i] == 10.0 && legHeights[i] == 20.0;
    assert forall j :: 0 <= j < 4 ==> insertHeights[j] == 5.0;
    MaxIs(diams, 0, 10.0);
    MaxIs(legHeights, 0, 20.0);
    MaxIs(insertHeights, 0, 5.0);
  }

  lemma MaxIs(s: seq<real>, k: nat, v: real)
    requires k < |s| && s[k] == v
    requires forall i :: 0 <= i < |s| ==> s[i] <= v
    ensures Max(s) == v
  {
    assert Max(s) in s;
  }

  lemma MinIs(s: seq<real>, k: nat, v: real)
    requires k < |s| && s[k] == v
    requires forall i :: 0 <= i < |s| ==> v <= s[i]
    ensures Min(s) == v
  {
    assert Min(s) in s;
  }

  lemma CornerBounds()
    ensures Min(Xs(InsertPositions)) == 0.0 && Max(Xs(InsertPositions)) == 100.0
    ensures Min(Ys(InsertPositions)) == 0.0 && Max(Ys(InsertPositions)) == 100.0
  {
    var xs, ys := Xs(InsertPositions), Ys(InsertPositions);
    assert |xs| == 4 && xs[0] == xs[1] == 0.0 && xs[2] == xs[3] == 100.0;
    assert |ys| == 4 && ys[0] == ys[2] == 0.0 && ys[1] == ys[3] == 100.0;
    MinIs(xs, 0, 0.0);
    MaxIs(xs, 2, 100.0);
    MinIs(ys, 0, 0.0);
    MaxIs(ys, 1, 100.0);
  }

  /** The example assembles: every leg and every paired insert is created. */
  lemma ExampleSucceeds(legs: seq<Part>, inserts: seq<Part>)
    requires ExampleParts(legs, inserts)
    ensures Assemble(Margin, legs, LegPositions, inserts, InsertPositions).Success?
  {
    AssembleOutcome(Margin, legs, LegPositions, inserts, InsertPositions);
  }

  /** Twelve steps (the slab, three leg unions, four cut-and-union pairs),
      starting from the 120 by 120 by 5 box moved to (50, 50, -20). */
  lemma ExampleSteps(legs: seq<Part>, inserts: seq<Part>)
    requires ExampleParts(legs, inserts)
    ensures var r := Assemble(Margin, legs, LegPositions, inserts, InsertPositions);
            r.Success? &&
            |Steps(r.value)| == 12 &&
            Steps(r.value)[0] == Start(Translate(Box(120.0, 120.0, 5.0), Vec3(50.0, 50.0, -20.0)))
  {
    ExampleLayout(legs, inserts);
    ExampleSucceeds(legs, inserts);
    AssemblySteps(Margin, legs, LegPositions, inserts, InsertPositions);
  }

  /** The finished solid's footprint is the slab's, -10 to 110 both ways. */
  lemma ExampleFootprint(legs: seq<Part>, inserts: seq<Part>)
    requires ExampleParts(legs, inserts)
    ensures var r := Assemble(Margin, legs, LegPositions, inserts, InsertPositions);
            r.Success? &&
            var e := Enclosure(r.value);
            e.Some? && e.value.lo.x == -10.0 && e.value.hi.x == 110.0 &&
            e.value.lo.y == -10.0 && e.value.hi.y == 110.0
  {
    ExampleLayout(legs, inserts);
    ExampleSucceeds(legs, inserts);
    var l := ComputeLayout(Margin, legs, InsertPositions, inserts).value;
    SlabExtent(l);
    LegsInsideFootprint(legs, inserts, Enclosure(Slab(l)).value);
    InsertsInsideFootprint(legs, inserts, l.z, Enclosure(Slab(l)).value);
    AssemblyFootprint(Margin, legs, LegPositions, inserts, InsertPositions);
  }

  lemma SlabExtent(l: Layout)
    requires l == Layout(10.0, -10.0, 110.0, -10.0, 110.0, 120.0, 120.0, 50.0, 50.0, -20.0, 5.0)
    ensures Enclosure(Slab(l)) == Some(Extent(Vec3(-10.0, -10.0, -22.5), Vec3(110.0, 110.0, -17.5)))
  {
  }

  /** Each leg, 10 wide at its position, stays inside the slab's footprint. */
  lemma LegsInsideFootprint(legs: seq<Part>, inserts: seq<Part>, f: Extent)
    requires ExampleParts(legs, inserts)
    requires f.lo.x == -10.0 && f.hi.x == 110.0 && f.lo.y == -10.0 && f.hi.y == 110.0
    ensures forall i :: 0 <= i < |Zip(legs, LegPositions)| ==> LegWithin(Zip(legs, LegPositions)[i], f)
  {
    var legPairs := Zip(legs, LegPositions);
    forall i | 0 <= i < |legPairs|
      ensures LegWithin(legPairs[i], f)
    {
      LegPlacementEnclosure(legPairs[i].0, legPairs[i].1, 5.0, 5.0);
    }
  }

  /** Each heat insert, 5 wide at a corner, stays inside the slab's footprint. */
  lemma InsertsInsideFootprint(legs: seq<Part>, inserts: seq<Part>, z: real, f: Extent)
    requires ExampleParts(legs, inserts)
    requires f.lo.x == -10.0 && f.hi.x == 110.0 && f.lo.y == -10.0 && f.hi.y == 110.0
    ensures forall j :: 0 <= j < |Zip(inserts, InsertPositions)| ==>
              InsertWithin(Zip(inserts, InsertPositions)[j], z, f)
  {
    var insertPairs := Zip(inserts, InsertPositions);
    forall j | 0 <= j < |insertPairs|
      ensures InsertWithin(insertPairs[j], z, f)
    {
      InsertPlacementEnclosure(insertPairs[j].0, insertPairs[j].1, z, 2.5, 2.5);
    }
  }

  /** `[SemiHollowCylinder(...) for _ in range(n)]`: n distinct new parts of one size. */
  method NewParts(n: nat, cylDiam: real, holeDiam: real, holeDepth: real, cylHeight: real)
    returns (parts: seq<SemiHollow.SemiHollowCylinder>)
    ensures |parts| == n
    ensures forall i :: 0 <= i < n ==> fresh(parts[i])
    ensures forall i, j :: 0 <= i < j < n ==> parts[i] != parts[j]
    ensures forall i :: 0 <= i < n ==>
              parts[i].cylDiam == cylDiam && parts[i].holeDiam == holeDiam &&
              parts[i].holeDepth == holeDepth && parts[i].cylHeight == cylHeight &&
              parts[i].body == None && parts[i].outerBody == None
  {
    parts := [];
    while |parts| < n
      invariant |parts| <= n
      invariant forall i :: 0 <= i < |parts| ==> fresh(parts[i])
      invariant forall i, j :: 0 <= i < j < |parts| ==> parts[i] != parts[j]
      invariant forall i :: 0 <= i < |parts| ==>
                  parts[i].cylDiam == cylDiam && parts[i].holeDiam == holeDiam &&
                  parts[i].holeDepth == holeDepth && parts[i].cylHeight == cylHeight &&
                  parts[i].body == None && parts[i].outerBody == None
    {
      var c := new SemiHollow.SemiHollowCylinder(cylDiam, holeDiam, holeDepth, cylHeight);
      parts := parts + [c];
    }
  }

  /** `for part in parts: part.create()`: afterwards every part is created. */
  method CreateAll(parts: seq<SemiHollow.SemiHollowCylinder>)
    modifies set c | c in parts
    ensures forall i :: 0 <= i < |parts| ==>
              parts[i].outerBody == Some(SemiHollow.BaseCylinder(parts[i].cylDiam, parts[i].cylHeight)) &&
              parts[i].body == Some(SemiHollow.Hollowed(parts[i].cylDiam, parts[i].holeDiam,
                                                        parts[i].holeDepth, parts[i].cylHeight))
  {
    var i := 0;
    while i < |parts|
      invariant 0 <= i <= |parts|
      invariant forall k :: 0 <= k < i ==>
                  parts[k].outerBody == Some(SemiHollow.BaseCylinder(parts[k].cylDiam, parts[k].cylHeight)) &&
                  parts[k].body == Some(SemiHollow.Hollowed(parts[k].cylDiam, parts[k].holeDiam,
                                                            parts[k].holeDepth, parts[k].cylHeight))
    {
      var _ := parts[i].Create();
      i := i + 1;
    }
  }

  /** Parts of one size, all created. */
  predicate CreatedParts(parts: seq<SemiHollow.SemiHollowCylinder>,
                         cylDiam: real, holeDiam: real, holeDepth: real, cylHeight: real)
    reads parts
  {
    forall i :: 0 <= i < |parts| ==>
      parts[i].cylDiam == cylDiam && parts[i].holeDiam == holeDiam &&
      parts[i].holeDepth == holeDepth && parts[i].cylHeight == cylHeight &&
      parts[i].outerBody == Some(SemiHollow.BaseCylinder(cylDiam, cylHeight)) &&
      parts[i].body == Some(SemiHollow.Hollowed(cylDiam, holeDiam, holeDepth, cylHeight))
  }

  /** What `TableBody.create` reads of the example's created legs and heat inserts. */
  lemma ExampleViews(legs: seq<SemiHollow.SemiHollowCylinder>, heatInserts: seq<SemiHollow.SemiHollowCylinder>)
    requires |legs| == 3 && CreatedParts(legs, 10.0, 5.0, 5.0, 20.0)
    requires |heatInserts| == 4 && CreatedParts(heatInserts, 5.0, 2.5, 2.5, 5.0)
    ensures ExampleParts(Views(legs), Views(heatInserts))
  {
  }

  /** What the example's `table.create()` returns: a solid built in twelve
      steps (the slab, three leg unions, four cut-and-union pairs) from the
      120 by 120 by 5 box moved to (50, 50, -20), with the slab's footprint,
      -10 to 110 both ways. */
  predicate ExampleResult(r: Result<Solid, Error>) {
    r.Success? &&
    |Steps(r.value)| == 12 &&
    Steps(r.value)[0] == Start(Translate(Box(120.0, 120.0, 5.0), Vec3(50.0, 50.0, -20.0))) &&
    var e := Enclosure(r.value);
    e.Some? && e.value.lo.x == -10.0 && e.value.hi.x == 110.0 &&
    e.value.lo.y == -10.0 && e.value.hi.y == 110.0
  }

  lemma ExampleOutcome(legs: seq<Part>, inserts: seq<Part>)
    requires ExampleParts(legs, inserts)
    ensures ExampleResult(Assemble(Margin, legs, LegPositions, inserts, InsertPositions))
  {
    ExampleSteps(legs, inserts);
    ExampleFootprint(legs, inserts);
  }

  /** The script's main block up to `table.create()`: the legs and heat
      inserts are made and created, and the table assembles as
      `ExampleResult` states. */
  method BuildTable() returns (r: Result<Solid, Error>)
    ensures ExampleResult(r)
  {
    var legs := NewParts(3, 10.0, 5.0, 5.0, 20.0);
    CreateAll(legs);
    var heatInserts := NewParts(4, 5.0, 2.5, 2.5, 5.0);
    CreateAll(heatInserts);
    assert CreatedParts(legs, 10.0, 5.0, 5.0, 20.0);
    assert CreatedParts(heatInserts, 5.0, 2.5, 2.5, 5.0);
    var table := new TableBody(Margin, legs, LegPositions, heatInserts, InsertPositions);
    r := table.Create();
    ExampleViews(legs, heatInserts);
    ExampleOutcome(Views(legs), Views(heatInserts));
  }
}
