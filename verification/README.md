# BugfixedHL: player physics, versions, messages and lists, verified

Dafny models of four parts of the BugfixedHL code base, with proofs of what they promise:

* **Player physics** (`src/pm_shared/pm_shared.cpp`): the command of a walking, swimming, jumping or ducking
  player from start to end. `Vectors`, `Engine` and `Player` are the data; `SlideMove` and `Movement` say what
  every operation does as a function of the player; `PlayerRecord` is the player record changed in place, each
  method tied to its function; `SlideBounds`, `WalkSafety`, `AirAndGround`, `FreeFall` and `DuckView` prove
  properties of single operations, of commands and of runs; `Worlds` has a world that keeps the engine's
  contract. `Jumping`, `FrameMemory` and `Water` are about jumps, what is remembered between commands (the jump
  key, the water jump) and the water level. `Walls` has the exact condition under which slides keep speed.
  `Impacts`, `Walking`, `Ducking` and `Swimming` say exactly what an impact, a walking or air move, the duck key
  and a move in water do to a player, direction by direction, and carry it to whole commands on an open floor, at
  a wall and in open water. `SlowDown` is the detection of the server's +use slowdown and `UseInFrame` puts it in the frame; `Textures` and
  `TextureSearch` are the table of step materials.
* **Versions** (`external/semver.c/semver.c`): `CStrings` (terminated buffers, decimal digits, `strtol`),
  `SemverCompare` and `SemverPrecedence` (the order, and the standard's), `SemverText`, `SemverParse` and
  `SemverRoundTrip` (printing and parsing), `SemverClean`.
* **Messages** (`src/common/parsemsg.cpp`): `ParseMsg`, the bounded writer and reader.
* **Intrusive list** (`src/public/pman_particlemem.h`): `MemList`, linked blocks refining a sequence.

`dafny verify dfyconfig.toml` checks the whole project.

## How the physics is modelled

* Floats are `real`. Loops over the three components of a vector are operations on vectors.
* The engine's callbacks are functions of hull and position; `Engine.Sound` is their contract: fractions in
  0..1, the end point on the line, `startsolid` exactly when the start is not clear, a trace that does not start
  in solid ends clear, normals zero or of length one, hits name one of `numphysent <= 600` entities, the position
  test answers -1 exactly for a clear hull, a box inside a clear box is clear, and `sqrt` is a square root.
  `FrameKeepsDuckOk` and `RunKeepsDuckOk` need none of it. The methods of `PlayerRecord` need it so that every
  write to the touch list is in bounds.
* `Worlds.FloorWorldSound` shows that a world with solid ground, in which traces do hit, keeps the contract.
* Hull sizes are those of `src/game/client/cdll_int.cpp:155-185`.
* The fields of `playermove_t` that move together are grouped: view vectors, stance (hull, ducking flag, duck
  timer, view height), keys. What a command only reads is in `Env`; the view vectors there are inputs, and so is
  the frame time (the code computes it from the milliseconds).
* One source function is often several methods here, one for each stretch of its body that has a meaning of its
  own; the table gives the lines of each.

## Where a promise holds only under a condition

* A slide keeps speed exactly when `bounce*(1-friction)` lies in -1..1 or the player does not walk; outside that
  range there is a slide that gains speed (`SlidesKeepSpeedIff`; off a flat wall for a bounce over 1,
  `WallSpeedsUp`; for a bounce under -1 only with traces that the contract allows but no flat wall gives; for a
  single clip `ClipNeverSpeedsUp`).
* Messages come back exactly up to 2046 bytes a string. At 2047 the string is whole but its terminator is read as
  the next item (`ItemRead`, `RoundTripIff`).
* Rendering and parsing are inverse except for negative numbers, parts with other than valid characters, and a
  plus sign in the prerelease (`RoundTripIff`).
* The order of versions departs from section 11 of Semantic Versioning 2.0.0 for numbers above 2^31-1, all of
  which are read as 2^31-1 (a long has 32 bits in the builds that `CMakeLists.txt:76-91` lets through), and for
  words made of a hyphen and digits, which are read as negative numbers; and only for those (`PlainIff`,
  `ListsPlainIff`, `VersionsPlainIff`).
* Looking a texture up after loading agrees with a scan of the file, for every order of its entries, exactly when
  the entries that match are of one kind or the first pivot that hits is the first entry of the sorted table, which
  the names alone decide (`LookupIsScanIff`); `SplitFileDiffers` is a file on which they differ.

## Where code and comments disagree

The code is followed. A comment in `PM_WalkMove` speaks of 16-unit steps where the code uses the server's step
size, one in `PM_CatagorizePosition` of a drop of 1 where the trace goes down 2, and the one on `semver_clean` of
-1 for invalid input where the code returns it only for too long a string and repairs any other. The +use
detection says that it looks for movement in some direction, but its key mask at `src/pm_shared/pm_shared.cpp:3273`
names the forward key twice and never the back key.

## Model

| member | source | states |
|---|---|---|
| Engine.NormalizeSound | src/pm_shared/pm_math.cpp:100-116 | normalising leaves the zero vector alone, gives every other vector length exactly one, and length times result is the vector again |
| PlayerRecord.PlayerRecord.AddToTouched | src/pm_shared/pm_shared.cpp:870-889 | the append is in bounds of the 600 entries, an entity already recorded adds nothing, and the answer says which of the two happened |
| Player.AddKeepsTouchOk | src/pm_shared/pm_shared.cpp:870-889 | after recording an impact every record still names a different entity, and the impact entity has one |
| Player.TouchRoom | src/pm_shared/pm_defs.h:20 | pigeonhole: distinct entities of numphysent never outnumber them, and while some entity has no record there is room, so "too many entities" cannot happen |
| PlayerRecord.ClipVelocity | src/pm_shared/pm_shared.cpp:943-973 | the clipped velocity with each component inside the epsilon set to zero; blocked is 1 for floors, 2 for walls, 0 for ceilings |
| SlideBounds.DeflectionNeverSpeedsUp | src/pm_shared/pm_shared.cpp:958-965 | before the epsilon zeroing, taking away overbounce times the normal component never adds speed, for every incoming velocity, if and only if overbounce lies in 0..2 |
| SlideBounds.ClipNeverSpeedsUp | src/pm_shared/pm_shared.cpp:943-973 | the same of the whole clip with its epsilon zeroing, against any unit normal, if and only if overbounce lies in 0..2 |
| SlideBounds.ClipKeepsSpeed | src/pm_shared/pm_shared.cpp:943-973 | clipping against a normal of length at most one, epsilon zeroing included, does not add speed |
| PlayerRecord.SlideAlong | src/pm_shared/pm_shared.cpp:1161-1176 | the nested search over the planes hit gives the velocity and the success that the recursive search gives |
| SlideBounds.SlideAlongClips | src/pm_shared/pm_shared.cpp:1161-1182 | the search ends at the first plane whose clip moves against no other plane; if there is none, the velocity is the clip against the last one |
| SlideBounds.CreaseKeepsSpeed | src/pm_shared/pm_shared.cpp:1184-1197 | moving along the un-normalised cross product of two planes does not add speed (Cauchy-Schwarz and a cross product of length at most one) |
| PlayerRecord.PlayerRecord.Deflect | src/pm_shared/pm_shared.cpp:1134-1209 | bounce off the first plane in the air, otherwise slide, follow the crease of exactly two planes or stop; stop as well when the result opposes the first velocity |
| SlideBounds.TurnedSlow | src/pm_shared/pm_shared.cpp:1134-1209 | whichever branch is taken, neither the new velocity nor the new reference velocity is faster than the reference velocity was |
| PlayerRecord.PlayerRecord.TraceMove | src/pm_shared/pm_shared.cpp:1053-1066 | the trace of a bump, retried from a thousandth of a unit off the wall when it did not move at all |
| PlayerRecord.PlayerRecord.Land | src/pm_shared/pm_shared.cpp:1082-1132 | go to the end of the trace, forget the earlier planes if it moved, record entity and plane |
| PlayerRecord.PlayerRecord.SlideBumps | src/pm_shared/pm_shared.cpp:1021-1219 | the loop of at most four bumps, with its three ways out, ends in the same position, velocity, touch list and flags as four steps of the bump function |
| PlayerRecord.PlayerRecord.FlyMove | src/pm_shared/pm_shared.cpp:1021-1219 | the record after the slide is the slide function of the record before, and the answer is 4 when trapped, else floor and wall bits |
| SlideBounds.FlyMoveKeepsSpeed | src/pm_shared/pm_shared.cpp:1021-1219 | a slide never increases speed, for any trace answers, when bounce*(1-friction) lies in -1..1 or the player does not walk |
| Walls.WallSpeedsUp | src/pm_shared/pm_shared.cpp:1140-1152 | a slide that does: with bounce*(1-friction) over 1, a player in the air who runs into the flat wall of a half-space leaves it at that many times the speed he came with |
| Walls.SlidesKeepSpeedIff | src/pm_shared/pm_shared.cpp:1021-1219 | no slide speeds the player up, in any world that keeps the contract and from any state, if and only if bounce*(1-friction) lies in -1..1 or the player does not walk |
| SlideBounds.BumpWithinBudget | src/pm_shared/pm_shared.cpp:1046-1209 | a bump keeps displacement within speed times time used plus 0.001 per bump, with the time left between zero and what it was |
| SlideBounds.FlyMoveDistance | src/pm_shared/pm_shared.cpp:1021-1219 | a slide moves the player at most speed*frametime + 0.004 units |
| SlideBounds.PlanesFit | src/pm_shared/pm_shared.cpp:1120-1132 | after k bumps at most k planes are held, so the branch for too many planes is never taken |
| SlideBounds.FlyMoveSafe | src/pm_shared/pm_shared.cpp:1021-1219 | a slide that starts clear of solids ends clear of solids, and the touch list keeps its entities distinct |
| PlayerRecord.PlayerRecord.CheckVelocity | src/pm_shared/pm_shared.cpp:898-931 | every velocity component is clamped to the limit in either direction, nothing else changes |
| PlayerRecord.PlayerRecord.AddCorrectGravity | src/pm_shared/pm_shared.cpp:975-994 | half of gravity and the vertical base velocity for the frame are applied, the latter is then cleared, and the velocity is clamped; nothing during a water jump |
| PlayerRecord.PlayerRecord.FixupGravityVelocity | src/pm_shared/pm_shared.cpp:996-1012 | the other half of gravity, and the clamp; nothing during a water jump |
| PlayerRecord.Push | src/pm_shared/pm_shared.cpp:1236-1260 | the acceleration step: along the wish direction up to the target, by no more than the push |
| AirAndGround.PushedAlong | src/pm_shared/pm_shared.cpp:1236-1260 | acceleration changes only the component along the wish direction, and takes it exactly to the smaller of the target and its sum with the push |
| AirAndGround.PushedSpeed | src/pm_shared/pm_shared.cpp:1236-1260 | acceleration along a unit direction with a target of at least zero adds at most the square of the target to the speed squared |
| PlayerRecord.PlayerRecord.Accelerate | src/pm_shared/pm_shared.cpp:1226-1261 | ground acceleration; the dead and the water jumping are left alone |
| PlayerRecord.PlayerRecord.AirAccelerate | src/pm_shared/pm_shared.cpp:1514-1548 | air acceleration: the target speed is capped at 30 but the push is not |
| PlayerRecord.GroundFriction | src/pm_shared/pm_shared.cpp:1467-1485 | edge friction when nothing is underfoot past the leading edge of the hull, times the player's own |
| PlayerRecord.Slow | src/pm_shared/pm_shared.cpp:1501-1511 | the velocity is scaled to the speed that is left, which is never negative |
| PlayerRecord.PlayerRecord.Friction | src/pm_shared/pm_shared.cpp:1438-1512 | the record after a frame of friction, with the two early returns |
| AirAndGround.FrictionStep | src/pm_shared/pm_shared.cpp:1438-1512 | on the ground velocity is scaled by a factor in 0..1; speed falls below 0.1 or by at least stopspeed times least friction times frame time |
| AirAndGround.FrictionStops | src/pm_shared/pm_shared.cpp:1438-1512 | n frames keep the direction and never speed up; once n drops use up the initial speed, the speed is below 0.1 |
| Water.WaterLevels | src/pm_shared/pm_shared.cpp:1720-1783 | the level is 1, 2 or 3 exactly when feet, feet and middle, or all of feet, middle and eyes are under water; in a current the push has length 50 times the level, otherwise there is none |
| Water.SurfaceLevel | src/pm_shared/pm_shared.cpp:1720-1760 | under a level surface the level is decided by depth alone: a unit above the bottom of the hull, the origin, and the view height |
| PlayerRecord.PlayerRecord.Ground | src/pm_shared/pm_shared.cpp:1812-1846 | standing on a plane of slope at least 0.7 and only there; the player is moved down to it unless the trace started or stayed in solid; entities other than the world are touched |
| PlayerRecord.PlayerRecord.CatagorizePosition | src/pm_shared/pm_shared.cpp:1793-1848 | rising at more than 180 is in the air, otherwise the trace 2 units down decides |
| PlayerRecord.PlayerRecord.FixPlayerCrouchStuck | src/pm_shared/pm_shared.cpp:2139-2159 | up to 36 single-unit tries in the direction until the hull is free, and back to the start if none is |
| PlayerRecord.PlayerRecord.StandUp | src/pm_shared/pm_shared.cpp:2194-2211 | the standing hull, view height, cleared flags and timer at the new origin, then the ground check |
| PlayerRecord.PlayerRecord.UnDuck | src/pm_shared/pm_shared.cpp:2164-2213 | standing up only if the standing hull is free there, with the repeated trace and the restored hull otherwise |
| PlayerRecord.PlayerRecord.FinishDuck | src/pm_shared/pm_shared.cpp:2270-2290 | ducked hull and view; on the ground also 18 lower, unstuck if need be, and the ground check |
| PlayerRecord.PlayerRecord.HoldDuck | src/pm_shared/pm_shared.cpp:2254-2299 | start the timer on a fresh press, finish in the air or when time is up, otherwise lower the eyes along the spline |
| FrameMemory.DuckedWish | src/pm_shared/pm_shared.cpp:2247-2252 | in every frame of a ducked player what the keys ask for is exactly 0.333 of the command in every direction, however long he stays ducked; otherwise all of it |
| PlayerRecord.PlayerRecord.Duck | src/pm_shared/pm_shared.cpp:2215-2307 | which of holding, finishing and standing up a command comes to, with the dead and the disabled duck |
| PlayerRecord.PlayerRecord.ReduceTimers | src/pm_shared/pm_shared.cpp:3143-3150 | the duck timer runs down by the milliseconds of the command, not below zero |
| Jumping.BunnyCap | src/pm_shared/pm_shared.cpp:2662-2685 | the direction is kept; a speed above 1.7 times the top speed becomes exactly 0.65 of that bound, any other stays; so it is never above the bound |
| PlayerRecord.JumpVelocity | src/pm_shared/pm_shared.cpp:2794-2816 | takeoff velocity of the ordinary and of the long jump |
| Jumping.LeapSpeed | src/pm_shared/pm_shared.cpp:2774-2822 | with the cap on, no jump but the long jump leaves the ground at a level speed above 1.7 times the top speed; none other gains level speed; the long jump leaves at 560 or less |
| FrameMemory.ReleasedBetweenJumps | src/pm_shared/pm_shared.cpp:2692-2834 | over every run, between any two frames in which the jump key takes the player off the ground there is one with the key up: holding the key jumps once |
| Jumping.JumpFrame | src/pm_shared/pm_shared.cpp:2774-2834 | the whole frame of a jump with nothing in the way moves the player as if falling freely from the takeoff velocity, in position and velocity |
| Jumping.JumpPath | src/pm_shared/pm_shared.cpp:3371-3474 | a jump and the frames of falling after it stay on one parabola from the takeoff, however the time is divided into commands |
| Jumping.JumpHeight | src/pm_shared/pm_shared.cpp:2794-2816 | over such a run the player rises at most 45 units above the takeoff under gravity 800, or 56 for the long jump, in general times 800 over gravity, and reaches it exactly when gravity has used up the takeoff speed |
| Worlds.JumpHappens | src/pm_shared/pm_shared.cpp:2774-2834 | what the theorem on height asks for happens: from rest on a solid floor, with two commands of a hundredth of a second |
| FrameMemory.FrameLatches | src/pm_shared/pm_shared.cpp:3425-3436 | over a frame with the jump key down, a key remembered stays remembered, and a jump remembers it, whichever branch the frame takes |
| FrameMemory.WaterJumpEnds | src/pm_shared/pm_shared.cpp:2449-2468 | no water jump lasts longer than two seconds: when the last frame of one begins, fewer than 2000 milliseconds have passed since it began |
| FrameMemory.WaterJumpRunsOut | src/pm_shared/pm_shared.cpp:2449-2468 | over a run that is one water jump the direction stays and the timer is what the milliseconds of the commands leave, or stopped |
| FrameMemory.WaterJumpFrameSpeed | src/pm_shared/pm_shared.cpp:2449-2468 | a frame of a water jump, slide included, ends with a speed squared of at most 2500 plus the square of the vertical speed it came to the move with |
| FrameMemory.CheckWaterJumpOk | src/pm_shared/pm_shared.cpp:2842-2904 | a water jump begins only when none is under way: two seconds on the timer, 225 upwards, and as direction 50 units against the normal of the nearly vertical wall that the trace ahead hit |
| FrameMemory.RunKeepsWaterJumpOk | src/pm_shared/pm_shared.cpp:2842-2904 | over every run the timer stays in 0..2000, while it runs the direction has level speed squared 2475 to 2500 (or is zero, off a trace without a normal), and the water level stays in 0..3 |
| PlayerRecord.PlayerRecord.WishFlat | src/pm_shared/pm_shared.cpp:1289-1315 | the level wish direction and speed that the keys ask for, capped at the top speed |
| PlayerRecord.PlayerRecord.AirMove | src/pm_shared/pm_shared.cpp:1651-1695 | wish, air acceleration, base velocity, slide |
| AirAndGround.AirMoveSpeed | src/pm_shared/pm_shared.cpp:1514-1548 | without base velocity an air move adds at most 900 to the speed squared, slide included |
| AirAndGround.AirMovesSpeed | src/pm_shared/pm_shared.cpp:1651-1695 | n air moves in a row add at most 900 n to the speed squared, however the player strafes |
| PlayerRecord.PlayerRecord.WalkAccelerate | src/pm_shared/pm_shared.cpp:1289-1323 | wish, level velocity, ground acceleration and base velocity of a walking move |
| PlayerRecord.PlayerRecord.Lift | src/pm_shared/pm_shared.cpp:1379-1393 | up by a step, then a slide from there |
| PlayerRecord.PlayerRecord.StepMove | src/pm_shared/pm_shared.cpp:1362-1428 | slide on the level and slide up a step, and keep the one that went farther on a floor |
| AirAndGround.StepMoveGoesFarther | src/pm_shared/pm_shared.cpp:1362-1428 | the result is one of the two and goes at least as far over the ground as the other; a step down onto anything but a floor is never taken; vertical velocity is that of the level slide |
| AirAndGround.StepMoveSpeed | src/pm_shared/pm_shared.cpp:1362-1428 | a step move ends at a level speed of at most the whole speed before it, and its speed squared at most doubles, as height and the rest may come from different slides |
| AirAndGround.WalkMoveSpeed | src/pm_shared/pm_shared.cpp:1270-1429 | a walking move without base velocity adds at most the square of the top speed to the level speed squared |
| PlayerRecord.PlayerRecord.WalkMove | src/pm_shared/pm_shared.cpp:1270-1429 | at rest below speed 1, straight to the end when nothing is in the way, otherwise a step move unless airborne out of water or water jumping |
| PlayerRecord.DragInWater | src/pm_shared/pm_shared.cpp:1593-1606 | water friction takes speed*frametime*friction parts of the velocity, not below zero |
| PlayerRecord.PlayerRecord.WaterAccelerate | src/pm_shared/pm_shared.cpp:1566-1627 | the velocity after drag and the push towards four fifths of the wish speed, and whether the keys ask for any motion |
| AirAndGround.WaterVelocityBound | src/pm_shared/pm_shared.cpp:1566-1627 | after drag and swimming push the speed is at most the larger of four fifths of the top speed and what it was |
| PlayerRecord.PlayerRecord.WaterMove | src/pm_shared/pm_shared.cpp:1556-1643 | drag and push, then down onto the step underneath if the trace allows, else a slide |
| PlayerRecord.PlayerRecord.Swim | src/pm_shared/pm_shared.cpp:3390-3420 | the frame of a swimmer |
| PlayerRecord.PlayerRecord.Step | src/pm_shared/pm_shared.cpp:3423-3485 | the frame out of deep water: jump, friction, clamp, walk or air move, ground check, second half of gravity |
| AirAndGround.StepLimited | src/pm_shared/pm_shared.cpp:3423-3485 | that frame ends with every velocity component within the server's limit |
| PlayerRecord.PlayerRecord.Walk | src/pm_shared/pm_shared.cpp:3371-3490 | which of water jump, swimming and stepping the frame is |
| PlayerRecord.PlayerRecord.Pull | src/pm_shared/pm_shared.cpp:3262-3325 | the +use part on the player: slowed exactly when the method in force is the old one, while the detector learns from the speed before |
| PlayerRecord.PlayerRecord.PlayerMove | src/pm_shared/pm_shared.cpp:3171-3491 | the whole command on record and detector equals the client frame function; the touch list, stale before, ends valid; a player in the open stays in the open |
| Impacts.ClipDirections | src/pm_shared/pm_shared.cpp:943-973 | off a unit normal a clip keeps the velocity along every direction in the plane and turns what goes along the normal to (1 - overbounce) times itself, each to within the 0.1 a component that the epsilon zeroing may take |
| Impacts.CreaseAlong | src/pm_shared/pm_shared.cpp:1184-1197 | the crease velocity leaves both planes alone, and along the crease it is the velocity before, times the square of the un-normalised cross product |
| Impacts.ImpactGoesOn | src/pm_shared/pm_shared.cpp:1082-1209 | after an impact on one plane the slide goes on along it: velocity in the plane kept, none into it but the rebound, which a floor never gives; the entity is recorded with the velocity it was hit at, floor above 0.7 and wall at 0 are noted; it stops only where bouncing is not tried |
| Impacts.SlidesAlongWall | src/pm_shared/pm_shared.cpp:1021-1219 | a whole slide into the flat wall of a half-space, exactly: up to the wall and on along it for the rest of the frame, the velocity into the wall gone and the rest kept, answer 2, the world touched |
| Impacts.TrappedStops | src/pm_shared/pm_shared.cpp:1068-1077 | all in solid: the player stays, is stopped and the answer is 4 |
| Impacts.HemmedStops | src/pm_shared/pm_shared.cpp:1211-1217 | a slide none of whose traces gets anywhere leaves the player in place and at rest |
| Walking.FlattenLaw | src/pm_shared/pm_shared.cpp:1293-1298 | the view is brought into the level: each direction level, of length one, a positive multiple short of the level part; what looks straight up gives nothing; a level view stays |
| Walking.AskedParts | src/pm_shared/pm_shared.cpp:1300-1303 | what the keys ask for has the forward key as its component along forward and the side key along right |
| Walking.AirSteers | src/pm_shared/pm_shared.cpp:1651-1695 | with nothing in the way the keys of a player in the air add a non-negative multiple of what they ask for and nothing else, and he goes there; from rest the gain is what the acceleration gives, up to 30 |
| Walking.AirKeys | src/pm_shared/pm_shared.cpp:1651-1695 | from rest in the air each key gains along its own direction by as much as it is pressed, with its sign, and nothing along the other's |
| Walking.KeysDoNothing | src/pm_shared/pm_shared.cpp:1226-1261 | the keys of a dead player or of one in a water jump change no velocity, in the air or on the ground |
| FrameMemory.WaterJumpFrame | src/pm_shared/pm_shared.cpp:2449-2468 | in a frame of a water jump the timer goes down by the milliseconds, stops at nothing, and stops at once when the player is out of the water |
| Walking.WalkMoveFree | src/pm_shared/pm_shared.cpp:1325-1353 | with nothing in the way a walking player goes where the velocity takes him for the frame, and under speed 1 he stands still |
| Walking.WalkSteers | src/pm_shared/pm_shared.cpp:1270-1353 | a whole walking move with nothing in the way: level velocity kept, more along what the keys ask for, and the player goes there; from rest the gain is what the acceleration gives |
| Walking.WalkKeys | src/pm_shared/pm_shared.cpp:1289-1353 | from rest on the ground each key gains along its own direction with its sign and nothing along the other's, and the player goes there |
| Walking.WalkMoveBlocked | src/pm_shared/pm_shared.cpp:1355-1362 | where the way is not free a player in the air out of water, or in a water jump, stays where he is with his velocity; any other tries the step |
| Walking.LiftedFree | src/pm_shared/pm_shared.cpp:1379-1393 | with nothing in the way the lifted slide goes up one step and on at the velocity |
| Walking.FrictionExact | src/pm_shared/pm_shared.cpp:1438-1512 | friction takes what the greater of speed and stop speed loses in the frame, with edge friction exactly where nothing is within 34 units below the feet 16 units ahead, down to nothing; it keeps the direction and leaves the air and speeds under 0.1 alone |
| Walking.GroundIff | src/pm_shared/pm_shared.cpp:1812-1846 | on the ground if and only if not rising faster than 180 and the trace two units down finds a slope of at least 0.7, and then on the entity hit; a water jump ends there; other entities are recorded |
| Walking.FloorWalk | src/pm_shared/pm_shared.cpp:3371-3474 | a whole command on an open floor: friction takes its share of the level speed, the keys add along what they ask for, from rest what the acceleration gives, and the player goes there and stays on the floor, or under speed 1 stands still |
| AirAndGround.LimitNearest | src/pm_shared/pm_shared.cpp:898-931 | the limit on velocity changes it no more than it must: on each axis no velocity within the limit is nearer |
| Ducking.UnDuckExact | src/pm_shared/pm_shared.cpp:2164-2213 | under the engine's contract the player is stood up, eyes at 28, flags and timer cleared, around the same feet, exactly when the hull in use and the standing hull are both clear there; otherwise nothing at all changes |
| Ducking.KeyUp | src/pm_shared/pm_shared.cpp:2215-2307 | letting go of the duck key: a player who is ducked or on the way down stands up if and only if there is room; the dead, and those who may not duck, only from being ducked; all others stay as they are |
| Ducking.KeyDown | src/pm_shared/pm_shared.cpp:2215-2307 | holding it: a fresh press starts the timer, in the air the player is down at once, on the ground when 400 of its 1000 milliseconds are over, lowered by 18 onto the same feet; a key held from before starts nothing |
| Ducking.UnstuckFirst | src/pm_shared/pm_shared.cpp:2139-2159 | the search gives the first position that is free among the one it starts from and the steps after it, and the player's own if none is |
| Ducking.FloorGetsUp | src/pm_shared/pm_shared.cpp:2164-2213 | in a whole command on an open floor a ducked player who lets go of the key is standing on it, 36 above it, when the command comes to move |
| Ducking.FloorGoesDown | src/pm_shared/pm_shared.cpp:2254-2299 | in a whole command on an open floor a player on the way down is ducked exactly when 400 milliseconds are over |
| Ducking.TimerRuns | src/pm_shared/pm_shared.cpp:3143-3150 | the duck timer goes down by the milliseconds of the command and stops at nothing |
| Swimming.SwimAsks | src/pm_shared/pm_shared.cpp:1566-1579 | in water the keys ask along the view, up or down included, and the up key straight up; with no key at all the player sinks at 60 |
| Swimming.SwimSteers | src/pm_shared/pm_shared.cpp:1566-1627 | the water takes its share of the speed, keeping the direction, and the keys add along what they ask for exactly what is missing to four fifths of it, up to the push of the frame; less than 0.1 asked for is not moving |
| Swimming.WaterMoveFree | src/pm_shared/pm_shared.cpp:1629-1642 | with nothing in the way a swimmer goes where the velocity takes him, and one who asks for nothing stays |
| Swimming.SwimFrame | src/pm_shared/pm_shared.cpp:3390-3420 | a whole command in open water over the eyes: no gravity, drag, push, and the player goes there |
| Swimming.SwimsUp | src/pm_shared/pm_shared.cpp:2719-2740 | the jump key in deep water lifts at 100, in slime at 80, in anything else at 50, and lets go of the ground |
| Swimming.WaterJumpStartsIff | src/pm_shared/pm_shared.cpp:2842-2904 | a player who looks along the level jumps out of the water if and only if he does not sink faster than 180, is not backing away, a nearly vertical wall is within 24 units of the knees and nothing is at the top of the hull |
| Swimming.OutOfWater | src/pm_shared/pm_shared.cpp:3390-3412 | that is asked in every command with the water at the waist, and only there |
| Swimming.CurrentRuns | src/pm_shared/pm_shared.cpp:1752-1762 | a current pushes the way its contents say, the four points of the level, up or down, by 50 for each water level |
| FreeFall.GravityIs | src/pm_shared/pm_shared.cpp:975-1012 | gravity is the server's times the player's own, and the server's alone where the player's own is nought |
| FreeFall.BaseLifts | src/pm_shared/pm_shared.cpp:975-994 | the vertical base velocity lifts the player by itself times the frame, once |
| FreeFall.CarriedByBase | src/pm_shared/pm_shared.cpp:1651-1695 | a base velocity carries a player along through the air and is not his when it is taken off again |
| Jumping.LongJumpsIff | src/pm_shared/pm_shared.cpp:2794-2798 | a long jump takes the module, the duck key, a duck that is not long over and a speed strictly between 50 and 500 |
| Jumping.TakeoffDirection | src/pm_shared/pm_shared.cpp:2794-2816 | an uncapped jump keeps the level velocity, a long jump goes at 560 where the player looks |
| SlowDown.EventBySpeed | src/pm_shared/pm_shared.cpp:3262-3300 | a command counts as moving with +use and a walking key on the ground from 5 units a second; the speed is low under a quarter of the top speed and high from two fifths |
| UseInFrame.UseSlows | src/pm_shared/pm_shared.cpp:3262-3325 | under the old method +use on the ground leaves exactly three tenths of the speed, and otherwise all of it |
| WalkSafety.CatagorizeMoves | src/pm_shared/pm_shared.cpp:1793-1848 | the ground check keeps hull and flags, keeps a clear hull clear and the touch list distinct |
| WalkSafety.WalkMoveMoves | src/pm_shared/pm_shared.cpp:1270-1429 | so does a walking move, through both slides and the step down |
| WalkSafety.PressDownMoves | src/pm_shared/pm_shared.cpp:1629-1642 | so does the end of a water move, whose downward trace starts away from the player |
| WalkSafety.UnDuckKeepsDuckOk | src/pm_shared/pm_shared.cpp:2164-2213 | standing up keeps hull and flags in agreement, because the repeated trace answers alike |
| WalkSafety.DuckKeepsDuckOk | src/pm_shared/pm_shared.cpp:2215-2307 | for any engine, the duck key keeps: ducking flag exactly when hull 1, never on the way down and down at once, timer in 0..1000 |
| WalkSafety.CrouchNeverStuck | src/pm_shared/pm_shared.cpp:2277-2289 | finishing a duck on the ground puts the ducked hull inside the standing one, so the crouch fudge returns the player unmoved |
| WalkSafety.UnDuckGood | src/pm_shared/pm_shared.cpp:2164-2213 | standing up leaves the hull clear of solids whichever hull it ends in |
| WalkSafety.DuckGood | src/pm_shared/pm_shared.cpp:2215-2307 | the whole duck command keeps a clear hull clear |
| WalkSafety.FrameKeepsDuckOk | src/pm_shared/pm_shared.cpp:3171-3491 | every command keeps the ducking state consistent, whatever the engine answers |
| WalkSafety.FrameKeepsGood | src/pm_shared/pm_shared.cpp:3171-3491 | every command of a player in the open, whatever the touch list before, ends in the open, with consistent ducking and distinct touch entities |
| WalkSafety.RunKeepsDuckOk | src/pm_shared/pm_shared.cpp:2164-2307 | over every run, with any engines and any commands, the ducking state stays consistent |
| WalkSafety.RunStaysClear | src/pm_shared/pm_shared.cpp:3171-3491 | over every run in one world the hull stays clear of solids, and the position test that would start the nudging never finds the player stuck |
| DuckView.ViewFalls | src/pm_shared/pm_shared.cpp:2128-2137 | during a duck the eyes stay within -6..28 of the origin and never rise as the timer runs down |
| DuckView.ViewMeetsDuck | src/pm_shared/pm_shared.cpp:2265-2298 | the eyes are above where the finished duck puts them by at most 102 times the square of the time left, and exactly there at the end |
| DuckView.HoldDuckView | src/pm_shared/pm_shared.cpp:2254-2299 | a command that leaves the player on the way down leaves the timer in (600, 1000], the eyes on the spline for it, and the player on the ground |
| DuckView.FeetStay | src/pm_shared/pm_shared.cpp:2172-2178 | ducking and standing on the ground keep the feet in place and cancel out; standing up from an unfinished duck lifts the feet by 18 |
| FreeFall.FrameFalls | src/pm_shared/pm_shared.cpp:975-1012 | one command with nothing in the way moves by frametime times the mid-frame velocity and takes all of gravity off the velocity |
| FreeFall.FreeFallExact | src/pm_shared/pm_shared.cpp:3371-3474 | any division of the same time into commands that fall freely along the parabola ends exactly on it, in position and velocity, standing, ducked, or with a duck finished on the way |
| Worlds.FallsAboveFloor | src/pm_shared/pm_shared.cpp:3371-3474 | above a solid floor a frame falls freely until it comes within two units of the floor, so what free fall asks for can happen |
| SlowDown.SlowDownState.Use | src/pm_shared/pm_shared.cpp:3262-3325 | one command, with the walking keys it holds, steps the detector, and scales the velocity by 0.3 exactly when the method in force is the old one |
| SlowDown.SlowDownState.SetUseSlowDownType | src/pm_shared/pm_shared.cpp:175-183 | changing to automatic detection starts it afresh, other changes keep it |
| SlowDown.SlowDownState.ResetDetection | src/pm_shared/pm_shared.cpp:253-257 | no state and no count |
| SlowDown.RunTracksStreak | src/pm_shared/pm_shared.cpp:3262-3325 | until done, the state is the last level of the unbroken streak and the count its drops, fewer than five |
| SlowDown.DoneIffEvidence | src/pm_shared/pm_shared.cpp:3262-3325 | done if and only if some unbroken stretch of moving commands, with no low speed directly followed by high, has at least five direct drops from high to low |
| SlowDown.MidBetweenDrops | src/pm_shared/pm_shared.cpp:3285-3312 | between two drops of such a stretch the speed passes through the middle |
| SlowDown.DoneStaysDone | src/pm_shared/pm_shared.cpp:3262-3325 | no command changes a detector that is done |
| UseInFrame.ClientRunIsRun | src/pm_shared/pm_shared.cpp:3262-3325 | a run of frames with the detector in them is a run of frames with the method then in force, and of the detector over what it saw |
| UseInFrame.SlowedIffEvidence | src/pm_shared/pm_shared.cpp:3262-3325 | with a fresh detector, +use slows the player in the frame after a run if and only if what the detector saw in the run holds the evidence |
| UseInFrame.ClientStaysClear | src/pm_shared/pm_shared.cpp:3171-3491 | over every such run in one world, whatever the detector learns, the player stays clear of solids |
| SlowDown.BackwardsUnseen | src/pm_shared/pm_shared.cpp:3273-3274 | as the mask names the forward key twice and never the back key, no run of commands without the other walking keys teaches the detector anything |
| Textures.CompareReverse | src/pm_shared/pm_shared.cpp:319-337 | the case-insensitive comparison changes sign with its arguments |
| Textures.CompareTransitive | src/pm_shared/pm_shared.cpp:319-337 | and is transitive, so that sorting by it means something |
| Textures.CompareEqual | src/pm_shared/pm_shared.cpp:409-439 | it gives zero exactly for names equal apart from case |
| Textures.TextureTable.SwapTextures | src/pm_shared/pm_shared.cpp:304-317 | two entries change places, names and kinds together |
| Textures.TextureTable.SortTextures | src/pm_shared/pm_shared.cpp:319-337 | the exchange sort as a function of the table: a sorted permutation of the name and kind pairs; a table that is sorted stays as it is |
| Textures.TextureTable.LoadLine | src/pm_shared/pm_shared.cpp:365-398 | a line adds one entry or none, as the line format says |
| Textures.ShapedParses | src/pm_shared/pm_shared.cpp:365-398 | every line of white space, a letter, white space, a name and white space after it gives the entry of the upper-case letter and the first 12 characters of the name |
| Textures.ParsedShape | src/pm_shared/pm_shared.cpp:365-398 | and no other line gives one |
| Textures.ParsedNames | src/pm_shared/pm_shared.cpp:394-396 | every stored name has 1 to 12 characters |
| Textures.TextureTable.InitTextureTypes | src/pm_shared/pm_shared.cpp:339-407 | after loading any file the table is the exchange sort of the first 512 entries of the file, a sorted permutation of them; a second load changes nothing; a missing file leaves an empty table |
| Textures.TextureTable.FindTextureType | src/pm_shared/pm_shared.cpp:409-439 | the kind of the first pivot that matches the first 12 characters; if any entry matches it is the kind of one that does, else concrete |
| Textures.PivotMatches | src/pm_shared/pm_shared.cpp:409-439 | in a sorted table the pivots hit an entry that matches whenever there is one |
| TextureSearch.LookupIsScanIff | src/pm_shared/pm_shared.cpp:319-439 | loading entries in whatever order they stand in the file and looking a name up answers as a linear scan of the file for every order, if and only if the entries that match are of one kind or the first pivot that hits is the first entry of the table |
| TextureSearch.SortedUnique | src/pm_shared/pm_shared.cpp:319-337 | two sorted orders of the same entries agree name by name, so what the pivots hit is decided by the names |
| TextureSearch.SortUndoes | src/pm_shared/pm_shared.cpp:319-337 | the exchange sort is not stable: an order in which it exchanges two entries back across others of the same name |
| TextureSearch.SplitFileDiffers | src/pm_shared/pm_shared.cpp:339-439 | a file on which they differ: three lines for one texture, of kinds C, M and M; the scan finds C and the lookup M |
| Textures.LinearFindOneKind | src/pm_shared/pm_shared.cpp:409-439 | where the matching entries are of one kind, the linear scan finds that kind |
| Textures.PermutationFind | src/pm_shared/pm_shared.cpp:339-439 | the linear scan of the sorted table is that of the file, where the matching entries are of one kind |
| MemList.MemList.Push | src/public/pman_particlemem.h:58-74 | the block becomes the head of the sequence, links in both directions kept |
| MemList.MemList.Front | src/public/pman_particlemem.h:76-79 | the head, or null for an empty list |
| MemList.MemList.Pop | src/public/pman_particlemem.h:81-97 | the head leaves the list detached; null from an empty list |
| MemList.MemList.Unlink | src/public/pman_particlemem.h:115-125 | the neighbours of a block that is not the head are joined and the block is detached |
| MemList.MemList.Delete | src/public/pman_particlemem.h:99-126 | the block, and no other, leaves the list detached; a block in no list changes nothing |
| MemList.MemList.Reset | src/public/pman_particlemem.h:128-132 | terminates with an empty list and every block detached |
| MemList.WithoutAt | src/public/pman_particlemem.h:99-126 | deletion from distinct blocks takes out one position and keeps the order of the rest |
| MemList.WithoutElements | src/public/pman_particlemem.h:99-126 | exactly the other blocks remain, still distinct |
| MemList.DeletionsCommute | src/public/pman_particlemem.h:99-126 | two deletions give the same list in either order |
| MemList.PushThenDelete | src/public/pman_particlemem.h:58-126 | deleting what has just been pushed gives the list back |
| ParseMsg.BufferWriter.constructor | src/common/parsemsg.cpp:229-247 | an empty writer with all its room, or one without a buffer |
| ParseMsg.BufferWriter.WriteByte | src/common/parsemsg.cpp:250-261 | one byte written, or the overflow mark set and nothing written |
| ParseMsg.BufferWriter.WriteLong | src/common/parsemsg.cpp:264-278 | four bytes in little-endian order, or overflow and nothing written |
| ParseMsg.BufferWriter.WriteString | src/common/parsemsg.cpp:281-314 | the bytes and a terminator; if they do not fit, overflow and an empty string where there is room for one |
| ParseMsg.BufferWriter.GetSpaceUsed | src/common/parsemsg.cpp:317-320 | the number of bytes written |
| ParseMsg.MessageReader.BeginRead | src/common/parsemsg.cpp:35-41 | a reader in good order at the given position |
| ParseMsg.MessageReader.ReadOk | src/common/parsemsg.cpp:30-33 | whether no read has passed the end |
| ParseMsg.MessageReader.ReadByte | src/common/parsemsg.cpp:59-73 | the byte and the cursor after it, or -1 and the bad mark |
| ParseMsg.MessageReader.ReadLong | src/common/parsemsg.cpp:97-112 | the signed 32-bit value of four bytes, or -1 and the bad mark with the cursor where it was |
| ParseMsg.MessageReader.SafeReadString | src/common/parsemsg.cpp:159-186 | the characters up to the terminator, the end of the data or 2047 of them, left terminated in the buffer |
| ParseMsg.LongRoundTrip | src/common/parsemsg.cpp:97-112 | putting the four written bytes together gives the number back, negative ones included |
| ParseMsg.WriteAllFits | src/common/parsemsg.cpp:241-314 | any sequence of writes overflows exactly when it does not fit; if it does not overflow, its encoding is what is in the buffer |
| ParseMsg.CharsRead | src/common/parsemsg.cpp:159-186 | reading a terminated string gives as much of it as fits, and takes the terminator only if one more character would have fitted |
| ParseMsg.ItemRead | src/common/parsemsg.cpp:59-186 | an item is read back with the cursor after it exactly when it fits; a string of 2047 bytes comes back with the cursor still on its terminator |
| ParseMsg.RoundTripIff | src/common/parsemsg.cpp:59-186 | any sequence of encoded items is read back exactly, in good order and with the cursor at its end, if and only if every string has at most 2046 bytes |
| ParseMsg.WriteAllConserves | src/common/parsemsg.cpp:241-314 | whatever is written, room and bytes written add up to what they were, what was there stays, and overflow is never taken back |
| ParseMsg.WriteShort | src/common/parsemsg.cpp:250-314 | what does not fit sets the overflow mark and writes nothing, but for the terminator of a string |
| ParseMsg.ReadAllInside | src/common/parsemsg.cpp:59-186 | reading any sequence of things never takes the cursor back or past the end, and a bad mark stays |
| ParseMsg.ReadShort | src/common/parsemsg.cpp:59-186 | a number that is not all there is -1, marks the reader bad and takes nothing; a string without an end gives what there is and marks it bad at the end |
| ParseMsg.WrittenIsReadBack | src/common/parsemsg.cpp:35-320 | writer and reader together: whatever is written without overflow is read back exactly, ending at the space used, if and only if every string has at most 2046 bytes |
| SemverCompare.BinaryComparison | external/semver.c/semver.c:81-86 | the sign of the difference |
| SemverCompare.CompareIdentifiers | external/semver.c/semver.c:227-244 | the cursors' current identifiers are ordered as keys: numbers by value and before words, words as text |
| SemverCompare.ComparePrerelease | external/semver.c/semver.c:206-254 | the walk of two cursors equals splitting at the dots and comparing the lists of identifiers in order, with absent prereleases last |
| SemverCompare.CompareNumbers | external/semver.c/semver.c:272-283 | major, minor and patch in that order |
| SemverCompare.Compare | external/semver.c/semver.c:294-303 | numbers first, then prereleases |
| SemverCompare.VersionsReverse | external/semver.c/semver.c:294-303 | the order is reflexive and changes sign with its arguments |
| SemverCompare.VersionsTransitive | external/semver.c/semver.c:294-303 | and transitive, strictly so where a step is strict: a total preorder on all versions, valid or not |
| SemverPrecedence.PlainAgree | external/semver.c/semver.c:218-244 | on identifiers that are int-range numbers or words not read as negative numbers, the order is that of section 11 of Semantic Versioning 2.0.0 |
| SemverPrecedence.PlainIff | external/semver.c/semver.c:218-244 | a valid identifier is ordered as the standard says against all plain ones if and only if it is plain |
| SemverPrecedence.PlainListsAgree | external/semver.c/semver.c:206-254 | so are lists of plain identifiers |
| SemverPrecedence.ListsPlainIff | external/semver.c/semver.c:206-254 | a prerelease of valid identifiers is ordered as the standard says against all plain ones if and only if all of its own are plain |
| SemverPrecedence.VersionsPrecedence | external/semver.c/semver.c:294-303 | on versions with plain identifiers, before and equal are the precedence of the standard |
| SemverPrecedence.VersionsPlainIff | external/semver.c/semver.c:294-303 | a version with a valid prerelease, or none, is ordered as the standard says against all plain versions if and only if it is plain |
| SemverPrecedence.SplitJoin | external/semver.c/semver.c:218-251 | splitting at the dots undoes joining with dots, for identifiers without dots |
| CStrings.StrtolPrefix | external/semver.c/semver.c:224-227 | strtol run past an identifier into the rest of the string answers as on the identifier alone, because a dot stops it |
| CStrings.DecimalValue | external/semver.c/semver.c:501-507 | the decimal digits of a number are digits, and their value is the number |
| SemverText.Append | external/semver.c/semver.c:501-527 | a string is appended to the one in the buffer |
| SemverText.ConcatNum | external/semver.c/semver.c:501-507 | separator and decimal number are appended |
| SemverText.ConcatChar | external/semver.c/semver.c:509-514 | separator and part are appended |
| SemverText.Render | external/semver.c/semver.c:516-527 | the rendered version is appended to the string in the buffer |
| SemverText.ParseSlice | external/semver.c/semver.c:104-126 | the string is cut in place at its first separator and what followed is returned |
| SemverText.VersionRecord.ParseVersion | external/semver.c/semver.c:170-204 | slices are stored in turn; too long a slice or one that is not a number fails with the earlier ones stored |
| SemverText.VersionRecord.Parse | external/semver.c/semver.c:138-159 | metadata from the first plus, prerelease from the first minus before it, then the numbers; invalid strings leave the record alone |
| CStrings.StrtolReads | external/semver.c/semver.c:186-187 | white space, a sign and digits are read up to the last digit, as that number or the nearest that 32 bits hold |
| CStrings.StrtolShape | external/semver.c/semver.c:186-187 | and of any other string nothing is read |
| SemverParse.ValidStringsAre | external/semver.c/semver.c:13-22 | a string is valid exactly when it has at most 255 characters, each a digit, a letter, a dot, a minus or a plus sign |
| SemverParse.ParseLaw | external/semver.c/semver.c:138-204 | a valid string is accepted if and only if each of the first four dot-separated pieces before the first minus or plus sign has at most 50 characters and strtol reads it whole; the numbers of the pieces before the first that fails are stored, and the answer is 0 or -1 |
| SemverParse.PartsLaw | external/semver.c/semver.c:138-159 | the metadata is what follows the first plus sign, the prerelease what follows the first minus sign before that, absent where the sign is; an invalid string changes nothing |
| SemverParse.RenderedExample | external/semver.c/semver.c:516-527 | the separators of a rendered version are those of the standard |
| SemverRoundTrip.ParseNumbers | external/semver.c/semver.c:170-204 | the rendered numbers, if none is negative, parse to themselves |
| SemverRoundTrip.RoundTripIff | external/semver.c/semver.c:138-204 | parsing a rendered version gives it back exactly, into any record, if and only if no number is negative, the parts are valid and the prerelease has no plus sign |
| SemverRoundTrip.PlusCutsPrerelease | external/semver.c/semver.c:138-159 | a plus sign in the prerelease makes the version come back different |
| SemverRoundTrip.NegativeLost | external/semver.c/semver.c:138-204 | so does a negative number |
| SemverRoundTrip.RenderedInjective | external/semver.c/semver.c:516-527 | versions that parse back are rendered alike only if they are the same |
| SemverClean.StrCut | external/semver.c/semver.c:46-58 | characters are cut out in place, all the rest for a negative length |
| SemverClean.Clean | external/semver.c/semver.c:581-599 | the stepping-back loop terminates, and leaves exactly the valid characters in order, a valid version string; too long a string is refused unchanged |
| SemverClean.FilterConcat | external/semver.c/semver.c:581-599 | cleaning is done character by character: of a concatenation, the concatenation |
| SemverClean.FilterCounts | external/semver.c/semver.c:581-599 | each valid character is kept as often as it occurred and no other at all |
| SemverClean.FilterValid | external/semver.c/semver.c:566-599 | the result is valid, and a string is unchanged exactly when it was valid |
| SemverClean.FilterTwice | external/semver.c/semver.c:566-599 | cleaning twice is cleaning once, and the result is a valid version string |

## Left out

- Rounding, infinities and not-a-number of floats, and how `sqrt`, `sin` and `cos` are computed; the check for
  not-a-number in `PM_CheckVelocity` goes with them.
- `PM_CheckStuck` and its table of nudges: `RunStaysClear` shows that its first position test passes.
- Ladders, spectators, noclip, tossed and frozen players, and the dead player's other commands.
- `PM_CheckParamters` and view angles: the view vectors and speeds of the keys are inputs.
- Step and water sounds, punch angle, view roll, fall velocity, swim and step timers, and the water-jump flag
  beside its timer.
- Detection of the server's bunny-hop cap, its settings and those of duck taps: the caps are inputs.
- Checks particular to Team Fortress.
- Jumps and falls during which the keys move the player: `FreeFallExact` and `JumpHeight` are about hands off.
- A world that changes during a run: `RunStaysClear` is about one static world.
- In `parsemsg.cpp`: characters, shorts, words, floats, lines, coordinates, angles and the unsafe string reader.
- ParseMsg.BufferWriter.constructor: the length is not negative; with a negative one the code writes outside the
  buffer.
- ParseMsg.MessageReader.BeginRead: the position is not negative; with a negative one the code reads outside the
  buffer.
- A null argument of `WriteString`, which is written as an empty string.
- The static buffer that successive string reads share: a caller that keeps the pointer sees it overwritten.
- In `semver.c`: allocation failure, `semver_free`, `semver_numeric`, `semver_satisfies` with its operators, and
  the bump helpers.
- SemverRoundTrip.RoundTripIff: parts are of at most 48 characters, the most that the slice buffer of the
  renderer holds with separator and terminator; longer ones overrun it.
- SemverText.ConcatChar: a part of more than 48 characters, which overruns the slice buffer.
- SemverText.Render: versions with such parts.
- Builds with a long of more than 32 bits, which the project's own build refuses.
- SemverText.Append: the destination is large enough, as the code demands of its callers without checking.
- SemverClean.Clean: the index is an integer that may be -1 for a moment where the code's unsigned one wraps
  around; the branch for a failing cut cannot be reached and is an assertion.
- Textures.TextureTable.LoadLine: lines are strings without the zero character and of any length; reading the
  file in pieces of 511 characters is not modelled.
- MemList.MemList.Delete: a block of another list is not a permitted argument; the code would unlink it there.
- The memory that the blocks hold, their user data, and the allocator and particle classes around the list.
- `src/common/convar.cpp`, the AMXX glue, the RmlUi backends and the build scripts.
