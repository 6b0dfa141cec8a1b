# Custom bracket (table with legs and heat-insert sockets) — Dafny model

This project models `create_custom_bracket.py` from the auto_jig repository.
That script builds a 3-D printable "table" with the CadQuery CAD kernel.

- **`SemiHollowCylinder`** is a cylinder with a blind hole drilled from its top face. Its `create` method stores two solids:
  - `body`, the hollowed cylinder;
  - `outer_body`, the uncut cylinder.
- **`TableBody`** holds a margin, a list of legs with positions and a list of heat inserts with positions. Its `create` method:
  - checks that every leg was created;
  - derives the slab's footprint from the heat-insert positions, padded by half the widest leg's diameter plus the margin;
  - derives the slab's height level from the tallest leg and its thickness from the tallest heat insert;
  - builds the solid: the slab, one union per (leg, position) pair, then for every (heat insert, position) pair a cut by its outer cylinder followed by a union of its hollowed body. Both insert solids are turned half a turn about the axis (0,0,0)→(1,1,0) and moved to the position.
- **The script's main block** is the example: three legs, four heat inserts, margin 5.

The kernel is a symbolic term language:
- `Csg.Solid` records the calls that built a solid (cylinder, box, cut, union, rotate, translate).
- `Csg.Enclosure` gives a term's axis-aligned extent. For non-negative sizes it is exact for the primitives, for translations, for unions and for the one rotation the script uses. For a cut it gives the base's extent, which is an upper bound.
- `Table.Steps` reads a solid's build history back from its term, so the order of operations can be stated.

The Python exceptions become a `Result`. `Table.Error` names each exception and the line that raises it.

Modules:
- `Wrappers`: Option and Result.
- `Builtins`: Python's `max`, `min` and `zip`.
- `Csg`: the kernel terms.
- `SemiHollow`: the `SemiHollowCylinder` class.
- `Table`: the `TableBody` class, its specification functions and its lemmas.
- `BracketExample`: the main block.

The two classes are Dafny classes whose methods update their fields: `body` and `outerBody` in one, `surface` in the other. The two loops of `TableBody.create` are value-level methods with loop invariants, proved against the folds `PlaceLegs` and `PlaceInserts`.

What the code computes, in two places where it is easy to misread:

- **Example footprint.** In the example the footprint is -10 to 110 in both x and y. The padding is half the widest *leg's* diameter (10 / 2) plus the margin (5), not the heat insert's radius. So the slab is 120 by 120, centred at (50, 50). `BracketExample.ExampleLayout` states these values.
- **Vertical placement.**
  - The slab is centred at `z = -max leg height`: in the example it spans -22.5 to -17.5.
  - Legs are moved down by their own height, so they stand from -20 up to 0, with their holes opening at z = 0.
  - The half turn of a heat insert negates z. Its hole therefore opens at the slab's *lower* face (`Table.InsertPlacementEnclosure`). The code comment on source line 71 says the rotation makes the hole face up. In the same frame the legs rise from inside the slab up to z = 0, on the +z side, and the sockets open on the slab's -z face. So when the part stands on its legs, the sockets face up, as the comment says.

## Model

| member | source | states |
|---|---|---|
| Builtins.Max | create_custom_bracket.py:43 | `max` of a non-empty list: the result is an element and no element exceeds it (the empty case is the caller's `NoLegs`/`NoHeatInserts` error) |
| Builtins.Min | create_custom_bracket.py:44 | `min` of a non-empty list: the result is an element and no element is below it |
| Builtins.Zip | create_custom_bracket.py:62 | `zip` pairs the i-th elements and stops at the shorter list |
| Csg.HalfTurnAboutDiagonal | create_custom_bracket.py:68 | the 180-degree rotation about the axis (0,0,0)→(1,1,0) maps (x, y, z) to (y, x, -z) |
| Csg.HalfTurnInvolution | create_custom_bracket.py:68 | the half turn about (1,1,0) is its own inverse |
| Csg.TurnedIsImage | create_custom_bracket.py:74 | a point lies in an extent exactly when its image lies in the turned extent, and a point lies in the turned extent exactly when its image lies in the original |
| SemiHollow.BaseCylinder | create_custom_bracket.py:15-16 | the cylinder is `cylDiam` wide, centred on the axis, standing on z = 0 up to `cylHeight` |
| SemiHollow.HoleTool | create_custom_bracket.py:17-20 | the hole tool is `holeDiam` wide, centred on the axis, its top flush with the cylinder's top and reaching `holeDepth` down |
| SemiHollow.Hollowed | create_custom_bracket.py:22 | the hollowed body `cylinder.cut(hole)` has the uncut cylinder's extent |
| SemiHollow.HoleIsBlindIff | create_custom_bracket.py:17-22 | the hole stays inside the cylinder's bottom if and only if `holeDepth <= cylHeight` |
| SemiHollow.HoleInsideCylinderIff | create_custom_bracket.py:15-22 | for non-negative hole sizes, the hole tool lies within the cylinder's extent if and only if it is neither wider nor deeper |
| SemiHollow.SemiHollowCylinder.constructor | create_custom_bracket.py:6-12 | stores the four sizes; `body` and `outerBody` start as None |
| SemiHollow.SemiHollowCylinder.Create | create_custom_bracket.py:14-24 | `outerBody` becomes the uncut cylinder, `body` that cylinder cut by the hole tool, and `body` is returned |
| Table.AllLegsCreated | create_custom_bracket.py:39 | `all(leg.body for leg in top_legs)`, written as its left-to-right scan that stops at the first None body: it holds exactly when no leg in the list has a None body |
| Table.ComputeLayout | create_custom_bracket.py:43-58 | the error raised when a list is empty, in evaluation order: no legs, then no heat-insert positions, then no heat inserts; otherwise success |
| Table.ComputeLayoutMeetsSpec | create_custom_bracket.py:43-58 | on success the layout meets `IsLayoutFor`: widest leg diameter; tight padded bounds on the insert positions; width and length span the bounds; the centre is their midpoint; z is minus the tallest leg; thickness is the tallest insert |
| Table.LayoutMeetsSpec | create_custom_bracket.py:43-58 | the formulas of lines 43-58 imply `IsLayoutFor` |
| Table.LayoutDimensions | create_custom_bracket.py:44-54 | width (length) = insert x (y) extent + widest leg diameter + 2 × margin; the centre is the midpoint of the insert positions' extent |
| Table.Slab | create_custom_bracket.py:59-60 | the slab's extent is the box of the computed size centred at (centreX, centreY, z) |
| Table.SlabSpansBounds | create_custom_bracket.py:53-60 | the slab covers exactly minX..maxX and minY..maxY, and z ± thickness / 2 |
| Table.LegPlacement | create_custom_bracket.py:64 | a placed leg's extent is its body's extent moved by (x, y, -cylHeight) |
| Table.InsertPlacement | create_custom_bracket.py:68-69 | a placed insert solid's extent is its extent turned half a turn about (1,1,0) and moved by (x, y, z + cylHeight / 2); the same transform is used on lines 74-75 |
| Table.PlaceLegs | create_custom_bracket.py:62-64 | the leg loop adds exactly one step per zipped (leg, position) pair |
| Table.PlaceInserts | create_custom_bracket.py:66-75 | the insert loop succeeds if and only if every paired insert has both solids; otherwise it raises the uncreated-insert error |
| Table.Assemble | create_custom_bracket.py:38-78 | on success every leg is created, all three lists are non-empty and every paired insert is created |
| Table.AssembleOutcome | create_custom_bracket.py:39-75 | exactly which error `create` raises, in its order: uncreated legs; no legs; no insert positions; no inserts; an uncreated paired insert. Otherwise success, in both directions |
| Table.PlaceLegsSteps | create_custom_bracket.py:62-64 | the leg loop appends one union of the placed leg per pair, in order, and keeps the earlier history |
| Table.PlaceInsertsSteps | create_custom_bracket.py:66-75 | the insert loop appends, per pair and in order, a cut by the placed outer cylinder, then a union of the placed hollowed body |
| Table.AssemblySteps | create_custom_bracket.py:59-75 | the whole build history: the slab first, then the leg unions, then the insert cut/union pairs, under the transforms of lines 64, 68-69 and 74-75 |
| Table.AssemblyStepCount | create_custom_bracket.py:62-75 | the history has 1 + min(#legs, #leg positions) + 2 × min(#inserts, #insert positions) steps: extra list entries are ignored |
| Table.LegPlacementEnclosure | create_custom_bracket.py:62-64 | a placed leg is centred on its position and spans z from -cylHeight to 0; its hole spans z from -holeDepth to 0 |
| Table.InsertPlacementEnclosure | create_custom_bracket.py:66-75 | a placed insert's cutter and body are centred on its position and span z ± cylHeight / 2; its hole starts at the lower face and reaches holeDepth up |
| Table.InsertsWithinSlab | create_custom_bracket.py:55-69 | each paired insert's cutter lies between the slab's two faces in z |
| Table.PlaceLegsFootprint | create_custom_bracket.py:62-64 | unions of legs lying within the footprint keep the footprint |
| Table.PlaceInsertsFootprint | create_custom_bracket.py:66-75 | the cut/union pairs of inserts lying within the footprint keep the footprint |
| Table.AssemblyFootprint | create_custom_bracket.py:43-75 | when the legs and inserts lie within the slab, the finished solid's x/y extent is minX..maxX by minY..maxY |
| Table.AddLegs | create_custom_bracket.py:62-64 | the leg loop computes `PlaceLegs` of the zipped pairs |
| Table.AddInserts | create_custom_bracket.py:66-75 | the insert loop computes `PlaceInserts` of the zipped pairs, stopping at the first uncreated insert |
| Table.TableBody.constructor | create_custom_bracket.py:28-36 | stores the margin, legs, heat inserts and their positions; `surface` starts as None |
| Table.TableBody.Create | create_custom_bracket.py:38-78 | the result is `Assemble` of what the legs and inserts hold; on success it is stored in `surface`, on an exception `surface` is unchanged |
| BracketExample.ExampleLayout | create_custom_bracket.py:82-96 | the example's layout: bounds -10..110 both ways, 120 × 120, centre (50, 50), z = -20, thickness 5 |
| BracketExample.ExampleSucceeds | create_custom_bracket.py:82-96 | the example raises nothing |
| BracketExample.ExampleSteps | create_custom_bracket.py:82-96 | the example builds in 12 steps, starting from the 120 × 120 × 5 box moved to (50, 50, -20) |
| BracketExample.ExampleFootprint | create_custom_bracket.py:82-96 | the example's finished solid spans -10..110 in x and y |
| BracketExample.NewParts | create_custom_bracket.py:82 | the list comprehension (line 82 for the legs, line 86 for the heat inserts) makes n fresh, pairwise distinct, uncreated parts of the given size |
| BracketExample.CreateAll | create_custom_bracket.py:83-84 | the loop over the legs (and the same loop over the heat inserts on lines 87-88): afterwards every part holds its cylinder and hollowed body |
| BracketExample.BuildTable | create_custom_bracket.py:82-96 | the main block's `table.create()` succeeds with the result `ExampleResult` describes |

## Left out

- The kernel's geometry (volumes, the actual boolean operations) is not modelled. Solids are terms, and the only geometry proved is about axis-aligned extents.
- `Csg.Enclosure` of a cut is the base's extent, an upper bound on what the cut leaves. The footprint lemmas are therefore about the extent that encloses the solid.
- Floating point: all lengths are Dafny `real`, so rounding in `/ 2` and in the additions is not modelled.
- Python truthiness: `all(leg.body ...)` is modelled as "every body is not None". A created CadQuery workplane is taken to be truthy.
- Attributes the script never reassigns after `__init__` (the sizes, lists and margin) are `const` fields.
- `create` reads each part through `Table.View` and `Table.Views`, which copy its sizes and solids into a value; these are attribute reads, not computations of the source, so they carry no row above. The parts are not changed during `create`.
- `Table.TableBody`: Python keeps the leg, heat-insert and position lists by reference, and the model copies them into `const` sequences at construction. A change made to one of those lists after `__init__` (an `append`, an edited position) would be seen by Python's `create` and is not seen by `Table.TableBody.Create`. The parts themselves stay shared objects, so a leg created after the table is constructed is still seen.
- `Csg.Enclosure`: the code accepts negative sizes (CadQuery's `extrude` with a negative distance extrudes downward, and a negative `hole_depth` is not rejected). `Enclosure` of a cylinder or box with a negative size is an inverted extent and does not describe the solid; `SemiHollow.HoleTool` and `SemiHollow.HoleIsBlindIff` state extents for every depth, which mean what they say only for non-negative sizes.
- `SemiHollow.SemiHollowCylinder.Create` does not reject `holeDepth > cylHeight`; nor does the code. `SemiHollow.HoleIsBlindIff` states when the hole stays blind.
- STL export and the message printed at the end of the main block (lines 98-100) are I/O and are not modelled; `BracketExample.BuildTable` stops at `table.create()`.
- `web_viewer.py` and the rest of the repository are not part of this model.
- A `None` passed where a leg or insert list is expected, or a position tuple of the wrong shape, would be a Python type error. The model's types rule these out.
