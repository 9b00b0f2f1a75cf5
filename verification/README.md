# Helical loop brush starting conformation

A Dafny model of `make_helical_loopbrush`, which builds the starting coordinates of a chain of `L` particles arranged as a loop brush:

- The chain is cut into a **backbone** and a set of **loops**. Each loop is an index pair `(start, end)`. Its anchors `start` and `end` belong to the backbone. The particles strictly between them are its interior.
- The backbone particles are laid out in order along a **helix** of given radius and axial step. The phases are evenly spaced, so that consecutive backbone particles sit `1 / density` of arc length apart.
- Each loop is folded in half into a **hairpin**. Two straight arms of bonds equal to a direction `u` grow from its two anchors. Each arm takes `(end - start) // 2` steps. `u` is the anchors' midpoint projected onto the plane perpendicular to the helix axis, then normalised. It therefore points radially outward from the axis.

Modules:

- `Vectors`: 3-vectors over `real`, `Option`, and `Along(p, k, u)`, the point reached by `k` steps of `u` from `p`.
- `Loops`: loop normalisation, the ordering precondition on loop lists, and interior membership.
- `Backbone`: the backbone index sequence. It is built as the source builds it, by concatenating `np.arange` ranges.
- `Helix`: turn length, total winding, `linspace` phases and helix points. `pi`, `sin`, `cos` and `sqrt` are supplied in a `Numerics` record rather than computed.
- `Arms`: the anchored direction and the per-loop arm loop, as a method with loop invariants. Also placement for all loops in order.
- `Conformation`: the assignment `coords[bbidxs] = ...`, the end-to-end `Build`, and `IsLoopBrush`, the predicate describing a finished conformation.

The model follows the intended behaviour of the code: jitter is zero and loop orientations are anchored. Divisions that fail or yield `nan`/`inf` in floating point become explicit error outcomes.

## Model

| member | source | states |
|---|---|---|
| Loops.Normalize | polymer_simulations/starting_conformations.py:46-48 | the loop's start is the smaller and its end the larger index of the pair, the two anchors are exactly the pair's two indices, and its length is the absolute difference of the pair |
| Loops.NormalizeAll | polymer_simulations/starting_conformations.py:46-47 | one normalised loop per input pair, in input order |
| Loops.LoopsOrdered | polymer_simulations/starting_conformations.py:50-55 | loops sorted so that each ends no later than the next starts are ordered pairwise: any earlier loop ends no later than any later loop starts |
| Backbone.Arange | polymer_simulations/starting_conformations.py:52-55 | `np.arange(lo, hi)`: `hi - lo` elements (none when `hi <= lo`), the `i`-th being `lo + i`, so exactly the integers in `[lo, hi)` |
| Backbone.BackboneShape | polymer_simulations/starting_conformations.py:50-58 | for sorted, in-range loops, the backbone sequence `BackboneIndices` (the concatenation of `Arange` ranges, with `Between` giving the ranges between consecutive loops) is strictly increasing, starts at 0 and ends at `L - 1`, contains `k` exactly when `0 <= k < L` and `k` is inside no loop, and has length `L` minus the total interior count; with no loops it is `0 .. L-1` |
| Backbone.AnchorsOnBackbone | polymer_simulations/starting_conformations.py:50-55 | every loop anchor is on the backbone and no loop interior index is |
| Helix.Linspace | polymer_simulations/starting_conformations.py:64 | `n` values, the first 0, the last `stop`, consecutive values all `stop / (n - 1)` apart |
| Helix.PhaseSpacing | polymer_simulations/starting_conformations.py:60-64 | the backbone phases `BackbonePhases` (a `Linspace` up to the total `Winding`, computed from the `TurnLength`) start at 0, end at the total winding, and each gap between consecutive phases covers exactly `1 / density` of helix arc length |
| Helix.HelixPointOnCylinder | polymer_simulations/starting_conformations.py:66-69 | a helix point `HelixPoint` lies on the cylinder of the helix radius about the axis, and its height is `step` per `2 pi` of phase |
| Helix.BackboneRise | polymer_simulations/starting_conformations.py:60-69 | consecutive backbone points rise along the axis by the same amount, `step / density / turn length` |
| Vectors.AlongClosedForm | polymer_simulations/starting_conformations.py:83-85 | `k` repeated bonds of `u` from `p` reach `p + k u` |
| Vectors.AlongLevel | polymer_simulations/starting_conformations.py:80-85 | repeated bonds of a direction with no axial component keep the height |
| Arms.Direction | polymer_simulations/starting_conformations.py:79-82 | the direction is undefined exactly when the projected midpoint has zero length; otherwise it has no axial component and is a non-zero multiple of the anchors' projected midpoint |
| Arms.DirectionOutwardUnit | polymer_simulations/starting_conformations.py:79-82 | when `sqrt` is a true square root, a defined direction has unit length and is a positive multiple of the projected midpoint, so it points radially outward from the axis |
| Arms.DirectionSymmetric | polymer_simulations/starting_conformations.py:79 | the direction does not depend on which anchor of the pair is named first |
| Arms.PlaceArms | polymer_simulations/starting_conformations.py:83-85 | each arm takes `Steps` = `(end-start)//2` steps; only indices strictly inside the loop change; the interior before the split `end - (end-start)//2` is whole steps of `u` from the start anchor and the rest whole steps from the end anchor; every end-arm bond and every start-arm bond before the split equals `u`; for an even loop length the middle particle is `u` beyond its successor, because the end arm writes it last |
| Arms.ArmsStayLevel | polymer_simulations/starting_conformations.py:77-85 | with a level direction, each arm particle has the height of the anchor its arm grows from |
| Arms.PlaceLoop | polymer_simulations/starting_conformations.py:79-85 | one loop's turn: it fails exactly when the loop takes at least one arm step and its anchors give no direction; otherwise only the loop's interior changes, and it lies on the arms grown in that direction |
| Arms.PlaceAllArms | polymer_simulations/starting_conformations.py:73-85 | placement succeeds exactly when every loop whose arms take at least one step has anchors that give a defined direction (`AllDirected`); backbone particles are unchanged; each such loop's interior lies on the arms grown from its own anchors |
| Arms.AdjacentAnchorsNeedNoDirection | polymer_simulations/starting_conformations.py:82-83 | a loop between neighbouring particles takes no arm step, so placement never needs its direction, whatever its anchors |
| Conformation.Scatter | polymer_simulations/starting_conformations.py:66-69 | index assignment `c[idx] = vals`: the length is kept, unindexed positions keep their value, and a position indexed for the last time at `k` receives `vals[k]` |
| Conformation.Build | polymer_simulations/starting_conformations.py:45-87 | fails with a zero-density error exactly when the density is 0, with a degenerate-helix error exactly when the turn length is 0, and with a degenerate-direction error exactly when some loop that takes an arm step has anchors that give no direction; otherwise returns a loop brush |
| Conformation.BrushOfLayer | polymer_simulations/starting_conformations.py:66-85 | growing the arms on the helical backbone gives `L` particles with each backbone index at its helix point in backbone order and each loop's interior on the arms grown from its anchors |
| Conformation.LayerOnHelix | polymer_simulations/starting_conformations.py:66-69 | every backbone index is in range and, where the particle keeps its backbone-stage value, holds the helix point of the same backbone rank |
| Conformation.NoLoopsIsHelix | polymer_simulations/starting_conformations.py:56-69 | without loops, particle `k` is the `k`-th helix point |
| Conformation.LoopsLevel | polymer_simulations/starting_conformations.py:77-85 | in a loop brush every interior particle has the height of the anchor its arm grows from |
| Conformation.IncreasingNoRepeat | polymer_simulations/starting_conformations.py:66 | a strictly increasing index array never repeats an index, so no backbone assignment is overridden |
| Conformation.TenParticleExample | polymer_simulations/starting_conformations.py:46-85 | for 10 particles and the loop given as `(6, 2)`, the backbone is `0, 1, 2, 6, 7, 8, 9`, and the middle particle 4 sits one step of `u` beyond particle 5 |

## Left out

- Random backbone jitter (lines 70-71) is left out. It draws from numpy's global random generator and has no deterministic contract. The model uses the default magnitude of 0. Line 71 reads an undefined `kwargs`, so as written the function raises `NameError` there. The model follows the evident intent.
- Random loop orientation (lines 74-77) is left out for the same reason. Line 74 also reads `random_loop_orientation`, but the parameter is named `random_loop_orientations`, which is another `NameError`. The model uses the anchored orientation, the documented default.
- Arms.Direction: its own contract says only that the direction is a non-zero multiple of the projected midpoint with no axial component. `sqrt` is an uninterpreted parameter. Unit length and the outward sense are stated by `Arms.DirectionOutwardUnit`, under the assumption that `sqrt` is a true square root.
- Floating point is modelled as exact `real` arithmetic. `pi`, `sin`, `cos` and `sqrt` are parameters (`Numerics`). Rounding is not modelled.
- Density 0 is a `ZeroDivisionError` in the source, because the winding divides a Python float by it. A zero turn length, or a zero-length direction for a loop whose arms take at least one step, produces `inf`/`nan` coordinates in numpy instead of failing. The model reports all three as `Failed` outcomes. A loop between neighbouring particles (`end - start == 1`) takes no arm step, so its direction is never used. Even when that direction is `nan` in the code, the output stays finite, and the model builds it normally.
- Loop validation: the code never checks its loops. The model requires them as a precondition: after normalisation, each loop has `0 <= start < end < L` and ends no later than the next loop starts. This also excludes pairs with `start == end`. For those the code would put the anchor on the backbone twice.
- Loops that share an anchor (`end_i == start_{i+1}`) are allowed, as the code handles them. A stricter reading that demands `end_i < start_{i+1}` is not followed.
- Each arm takes `(end - start) // 2` steps, as in the code, not half the interior count. When the loop length is even, the middle particle is therefore written by both arms, and the end arm's value is kept.
- Loop directions are computed from the current coordinates when each loop's turn comes, as in the code. Because anchors are never loop interiors, these are the backbone positions.
- The `L x 3` array is modelled as a sequence of 3-vectors. The loop indices used for the direction (the raw pair) and for the arms (the normalised pair) name the same anchors; `Arms.DirectionSymmetric` shows that the order does not matter.
- Radius, step and density are not required to be positive, because the code does not check them. Only the divisions that cannot be carried out are errors.
