/** `SemiHollowCylinder`: a cylinder with a blind hole drilled down from its
    top face. It starts uncreated; `Create` builds the hollowed body and keeps
    the uncut cylinder as `outerBody`, later reused as a clearance cutter. */
module SemiHollow {
  import opened Wrappers
  import opened Csg

  /** The outer cylinder: diameter `cylDiam`, standing on z = 0 up to `cylHeight`. */
  function BaseCylinder(cylDiam: real, cylHeight: real): (s: Solid)
    ensures Enclosure(s) == Some(Extent(Vec3(-cylDiam / 2.0, -cylDiam / 2.0, 0.0),
                                        Vec3(cylDiam / 2.0, cylDiam / 2.0, cylHeight)))
  {
    Cylinder(cylDiam / 2.0, cylHeight)
  }

  /** The hole tool: a cylinder of the hole's size raised by
      `cylHeight - holeDepth`, so that its top is flush with the cylinder's top
      and it reaches `holeDepth` down from there, centred on the axis. */
  function HoleTool(holeDiam: real, holeDepth: real, cylHeight: real): (s: Solid)
    ensures Enclosure(s).Some?
    ensures Enclosure(s).value.hi.z == cylHeight
    ensures Enclosure(s).value.lo.z == cylHeight - holeDepth
    ensures Enclosure(s).value.hi.x - Enclosure(s).value.lo.x == holeDiam
    ensures Enclosure(s).value.hi.y - Enclosure(s).value.lo.y == holeDiam
    ensures Enclosure(s).value.lo.x == -Enclosure(s).value.hi.x
    ensures Enclosure(s).value.lo.y == -Enclosure(s).value.hi.y
  {
    Translate(Cylinder(holeDiam / 2.0, holeDepth), Vec3(0.0, 0.0, cylHeight - holeDepth))
  }

  /** The hollowed body: the outer cylinder cut by the hole tool. */
  function Hollowed(cylDiam: real, holeDiam: real, holeDepth: real, cylHeight: real): (s: Solid)
    ensures Enclosure(s) == Enclosure(BaseCylinder(cylDiam, cylHeight))
  {
    Cut(BaseCylinder(cylDiam, cylHeight), HoleTool(holeDiam, holeDepth, cylHeight))
  }

  /** The hole stays blind (does not come out below the cylinder's bottom)
      exactly when it is no deeper than the cylinder is tall; nothing checks
      this, so a deeper hole silently becomes a through hole. */
  lemma HoleIsBlindIff(holeDiam: real, holeDepth: real, cylHeight: real)
    ensures Enclosure(HoleTool(holeDiam, holeDepth, cylHeight)).value.lo.z >= 0.0
            <==> holeDepth <= cylHeight
  {
  }

  /** For non-negative sizes, the hole tool lies inside the outer cylinder's
      extent exactly when the hole is neither wider nor deeper than it. */
  lemma HoleInsideCylinderIff(cylDiam: real, holeDiam: real, holeDepth: real, cylHeight: real)
    requires holeDiam >= 0.0 && holeDepth >= 0.0
    ensures var hole := Enclosure(HoleTool(holeDiam, holeDepth, cylHeight)).value;
            var outer := Enclosure(BaseCylinder(cylDiam, cylHeight)).value;
            (outer.lo.x <= hole.lo.x && hole.hi.x <= outer.hi.x &&
             outer.lo.y <= hole.lo.y && hole.hi.y <= outer.hi.y &&
             outer.lo.z <= hole.lo.z && hole.hi.z <= outer.hi.z)
            <==> (holeDiam <= cylDiam && holeDepth <= cylHeight)
  {
  }

  class SemiHollowCylinder {
    const cylDiam: real
    const holeDiam: real
    const holeDepth: real
    const cylHeight: real
    /** The hollowed solid; None until `Create` runs. */
    var body: Option<Solid>
    /** The uncut outer cylinder; None until `Create` runs. */
    var outerBody: Option<Solid>

    constructor (cylDiam: real, holeDiam: real, holeDepth: real, cylHeight: real)
      ensures this.cylDiam == cylDiam && this.holeDiam == holeDiam
      ensures this.holeDepth == holeDepth && this.cylHeight == cylHeight
      ensures body == None && outerBody == None
    {
      this.cylDiam := cylDiam;
      this.holeDiam := holeDiam;
      this.holeDepth := holeDepth;
      this.cylHeight := cylHeight;
      body := None;
      outerBody := None;
    }

    /** Builds both solids and returns the hollowed one. */
    method Create() returns (r: Solid)
      modifies this
      ensures outerBody == Some(BaseCylinder(cylDiam, cylHeight))
      ensures body == Some(Cut(outerBody.value, HoleTool(holeDiam, holeDepth, cylHeight)))
      ensures body == Some(r)
    {
      var cylinder := BaseCylinder(cylDiam, cylHeight);
      var hole := HoleTool(holeDiam, holeDepth, cylHeight);
      body := Some(Cut(cylinder, hole));
      outerBody := Some(cylinder);
      r := body.value;
    }
  }
}
