/** Frame selection from a trajectory by interatomic distance
    (postdoc_scripts/xdatcar_frame_selector.py).

    For every target bond length the frames whose atom1-atom2 distance lies
    strictly within the initial tolerance of the target are collected; when
    there are none, the secondary tolerance is tried. Among the candidates the
    first frame with the smallest key distance is chosen: the atom1-atom2
    distance itself, or the atom1-atom3 distance in the third-atom variant.
    The chosen frame is recorded with its atom1-atom2 distance.

    A trajectory is a sequence of frames of any type `F`; the distance
    between two atoms of a frame (minimum-image convention) is computed by
    the structure library and is the parameter `distance` here. */
module FrameSelector {
  import opened Prelude
  import opened Numeric

  /** `abs(d - target) < tolerance`. */
  predicate Close(d: real, target: real, tolerance: real) {
    Abs(d - target) < tolerance
  }

  predicate StrictlyAscending(r: seq<nat>) {
    forall a, b | 0 <= a < b < |r| :: r[a] < r[b]
  }

  /** `find_frames_within_distance_range`: the indices of the frames whose
      atom1-atom2 distance is strictly within `tolerance` of `target`, every
      one of them, each once, in ascending order. */
  function FramesWithinRange<F>(trajectory: seq<F>, distance: (F, int, int) -> real, atom1: int, atom2: int,
                                target: real, tolerance: real): (r: seq<nat>)
    ensures forall k | 0 <= k < |r| :: r[k] < |trajectory| && Close(distance(trajectory[r[k]], atom1, atom2), target, tolerance)
    ensures forall i | 0 <= i < |trajectory| && Close(distance(trajectory[i], atom1, atom2), target, tolerance) :: i in r
    ensures StrictlyAscending(r)
    decreases |trajectory|
  {
    if trajectory == [] then []
    else
      var n := |trajectory| - 1;
      var init := trajectory[..n];
      var prev := FramesWithinRange(init, distance, atom1, atom2, target, tolerance);
      assert forall k | 0 <= k < |prev| :: init[prev[k]] == trajectory[prev[k]];
      assert forall i | 0 <= i < n :: init[i] == trajectory[i];
      prev + (if Close(distance(trajectory[n], atom1, atom2), target, tolerance) then [n] else [])
  }

  /** Two strictly ascending sequences with the same elements are equal. */
  lemma {:induction false} AscendingUnique(r: seq<nat>, q: seq<nat>)
    requires StrictlyAscending(r) && StrictlyAscending(q)
    requires forall v :: v in r <==> v in q
    ensures r == q
    decreases |r|
  {
    SameElementsEmpty(r, q);
    if r != [] {
      assert r[0] in r;
      assert q[0] in q;
      var m :| 0 <= m < |r| && r[m] == q[0];
      var k :| 0 <= k < |q| && q[k] == r[0];
      assert r[0] <= r[m] && q[0] <= q[k];
      forall v ensures v in r[1..] <==> v in q[1..] {
        if v in r[1..] {
          var a :| 0 <= a < |r[1..]| && r[1..][a] == v;
          assert r[0] < r[a + 1];
          assert v in q;
          var b :| 0 <= b < |q| && q[b] == v;
          assert b != 0;
          assert q[1..][b - 1] == v;
        }
        if v in q[1..] {
          var b :| 0 <= b < |q[1..]| && q[1..][b] == v;
          assert q[0] < q[b + 1];
          assert v in r;
          var a :| 0 <= a < |r| && r[a] == v;
          assert a != 0;
          assert r[1..][a - 1] == v;
        }
      }
      AscendingUnique(r[1..], q[1..]);
      assert r == [r[0]] + r[1..] && q == [q[0]] + q[1..];
    }
  }

  lemma SameElementsEmpty(r: seq<nat>, q: seq<nat>)
    requires forall v :: v in r <==> v in q
    ensures r == [] <==> q == []
  {
    if r != [] {
      assert r[0] in r;
    }
    if q != [] {
      assert q[0] in q;
    }
  }

  /** The range filter is characterised by what it promises: any ascending
      list of exactly the close frames is the filter's result. */
  lemma RangeFilterExact<F>(trajectory: seq<F>, distance: (F, int, int) -> real, atom1: int, atom2: int,
                            target: real, tolerance: real, q: seq<nat>)
    requires StrictlyAscending(q)
    requires forall v: nat :: v in q <==> v < |trajectory| && Close(distance(trajectory[v], atom1, atom2), target, tolerance)
    ensures q == FramesWithinRange(trajectory, distance, atom1, atom2, target, tolerance)
  {
    var r := FramesWithinRange(trajectory, distance, atom1, atom2, target, tolerance);
    forall v ensures v in r <==> v in q {
      if v in r {
        var k :| 0 <= k < |r| && r[k] == v;
      }
    }
    AscendingUnique(r, q);
  }

  /** Some frame is within `tolerance` of `target`. */
  predicate AnyClose<F>(trajectory: seq<F>, distance: (F, int, int) -> real, atom1: int, atom2: int,
                        target: real, tolerance: real) {
    exists i | 0 <= i < |trajectory| :: Close(distance(trajectory[i], atom1, atom2), target, tolerance)
  }

  /** The frames within the initial tolerance, or, when there are none,
      those within the secondary tolerance. */
  function Candidates<F>(trajectory: seq<F>, distance: (F, int, int) -> real, atom1: int, atom2: int,
                         target: real, initialTolerance: real, secondaryTolerance: real): seq<nat>
  {
    var first := FramesWithinRange(trajectory, distance, atom1, atom2, target, initialTolerance);
    if first != [] then first
    else FramesWithinRange(trajectory, distance, atom1, atom2, target, secondaryTolerance)
  }

  /** The secondary tolerance is consulted only when no frame is within the
      initial one; the candidates are empty only when no frame is within
      either. */
  lemma SecondaryOnlyWhenInitialEmpty<F>(trajectory: seq<F>, distance: (F, int, int) -> real, atom1: int, atom2: int,
                                         target: real, initialTolerance: real, secondaryTolerance: real)
    ensures AnyClose(trajectory, distance, atom1, atom2, target, initialTolerance) ==>
              Candidates(trajectory, distance, atom1, atom2, target, initialTolerance, secondaryTolerance)
              == FramesWithinRange(trajectory, distance, atom1, atom2, target, initialTolerance)
    ensures !AnyClose(trajectory, distance, atom1, atom2, target, initialTolerance) ==>
              Candidates(trajectory, distance, atom1, atom2, target, initialTolerance, secondaryTolerance)
              == FramesWithinRange(trajectory, distance, atom1, atom2, target, secondaryTolerance)
    ensures Candidates(trajectory, distance, atom1, atom2, target, initialTolerance, secondaryTolerance) == [] <==>
              !AnyClose(trajectory, distance, atom1, atom2, target, initialTolerance)
              && !AnyClose(trajectory, distance, atom1, atom2, target, secondaryTolerance)
  {
    var first := FramesWithinRange(trajectory, distance, atom1, atom2, target, initialTolerance);
    var second := FramesWithinRange(trajectory, distance, atom1, atom2, target, secondaryTolerance);
    if first != [] {
      assert first[0] < |trajectory|;
    }
    if second != [] {
      assert second[0] < |trajectory|;
    }
  }

  /** `[trajectory[i].get_distance(atom1, keyAtom, mic=True) for i in frames]`. */
  function KeyDistances<F>(trajectory: seq<F>, distance: (F, int, int) -> real, frames: seq<nat>,
                           atom1: int, keyAtom: int): (r: seq<real>)
    requires forall k | 0 <= k < |frames| :: frames[k] < |trajectory|
    ensures |r| == |frames|
    ensures forall k | 0 <= k < |frames| :: r[k] == distance(trajectory[frames[k]], atom1, keyAtom)
  {
    seq(|frames|, k requires 0 <= k < |frames| => distance(trajectory[frames[k]], atom1, keyAtom))
  }

  /** The entry one target adds to the output: among its candidates, the
      first frame whose atom1-keyAtom distance is smallest, recorded with its
      atom1-atom2 distance; nothing when there are no candidates. */
  function Choose<F>(trajectory: seq<F>, distance: (F, int, int) -> real, atom1: int, atom2: int, keyAtom: int,
                     target: real, initialTolerance: real, secondaryTolerance: real): Option<(nat, real)>
  {
    var c := Candidates(trajectory, distance, atom1, atom2, target, initialTolerance, secondaryTolerance);
    if c == [] then None
    else
      var f := c[ArgMin(KeyDistances(trajectory, distance, c, atom1, keyAtom))];
      Some((f, distance(trajectory[f], atom1, atom2)))
  }

  /** `np.argmin` over the key distances of an ascending list of frames
      picks a frame of the list whose key distance is the smallest, and
      strictly smaller than that of every frame before it. */
  lemma ArgMinFrame<F>(trajectory: seq<F>, distance: (F, int, int) -> real, c: seq<nat>, atom1: int, keyAtom: int)
    requires c != [] && StrictlyAscending(c)
    requires forall k | 0 <= k < |c| :: c[k] < |trajectory|
    ensures var f := c[ArgMin(KeyDistances(trajectory, distance, c, atom1, keyAtom))];
            f in c
            && (forall i | i in c :: distance(trajectory[f], atom1, keyAtom) <= distance(trajectory[i], atom1, keyAtom))
            && (forall i | i in c && i < f :: distance(trajectory[f], atom1, keyAtom) < distance(trajectory[i], atom1, keyAtom))
  {
    var keys := KeyDistances(trajectory, distance, c, atom1, keyAtom);
    var m := ArgMin(keys);
    var f := c[m];
    forall i | i in c ensures distance(trajectory[f], atom1, keyAtom) <= distance(trajectory[i], atom1, keyAtom) {
      var k :| 0 <= k < |c| && c[k] == i;
      assert keys[m] <= keys[k];
    }
    forall i | i in c && i < f ensures distance(trajectory[f], atom1, keyAtom) < distance(trajectory[i], atom1, keyAtom) {
      var k :| 0 <= k < |c| && c[k] == i;
      assert k < m;
      assert keys[m] < keys[k];
    }
  }

  /** A target has an entry exactly when some frame is within one of the two
      tolerances. The entry's frame is a candidate, its key distance is the
      smallest among the candidates and strictly smaller than that of every
      earlier candidate, and the recorded value is its atom1-atom2 distance,
      which is within the initial tolerance of the target, or else within the
      secondary one when no frame is within the initial one. */
  lemma ChosenFrame<F>(trajectory: seq<F>, distance: (F, int, int) -> real, atom1: int, atom2: int, keyAtom: int,
                       target: real, initialTolerance: real, secondaryTolerance: real)
    ensures var r := Choose(trajectory, distance, atom1, atom2, keyAtom, target, initialTolerance, secondaryTolerance);
            r.Some? <==> AnyClose(trajectory, distance, atom1, atom2, target, initialTolerance)
                         || AnyClose(trajectory, distance, atom1, atom2, target, secondaryTolerance)
    ensures var r := Choose(trajectory, distance, atom1, atom2, keyAtom, target, initialTolerance, secondaryTolerance);
            r.Some? ==>
              var f := r.value.0;
              var c := Candidates(trajectory, distance, atom1, atom2, target, initialTolerance, secondaryTolerance);
              f < |trajectory| && f in c && r.value.1 == distance(trajectory[f], atom1, atom2)
              && (forall i | i in c :: distance(trajectory[f], atom1, keyAtom) <= distance(trajectory[i], atom1, keyAtom))
              && (forall i | i in c && i < f :: distance(trajectory[f], atom1, keyAtom) < distance(trajectory[i], atom1, keyAtom))
    ensures var r := Choose(trajectory, distance, atom1, atom2, keyAtom, target, initialTolerance, secondaryTolerance);
            r.Some? ==>
              Close(r.value.1, target, initialTolerance)
              || (!AnyClose(trajectory, distance, atom1, atom2, target, initialTolerance)
                  && Close(r.value.1, target, secondaryTolerance))
  {
    SecondaryOnlyWhenInitialEmpty(trajectory, distance, atom1, atom2, target, initialTolerance, secondaryTolerance);
    var c := Candidates(trajectory, distance, atom1, atom2, target, initialTolerance, secondaryTolerance);
    if c != [] {
      ArgMinFrame(trajectory, distance, c, atom1, keyAtom);
    }
  }

  /** The outcome for every target, in target order. */
  function Choices<F>(trajectory: seq<F>, distance: (F, int, int) -> real, targets: seq<real>, atom1: int, atom2: int,
                      keyAtom: int, initialTolerance: real, secondaryTolerance: real): (r: seq<Option<(nat, real)>>)
    ensures |r| == |targets|
  {
    seq(|targets|, j requires 0 <= j < |targets| =>
      Choose(trajectory, distance, atom1, atom2, keyAtom, targets[j], initialTolerance, secondaryTolerance))
  }

  /** The values of the outcomes that are present, in order: what appending
      only the found entries to a list builds. */
  function Entries<T>(outcomes: seq<Option<T>>): (r: seq<T>)
    ensures |r| <= |outcomes|
    decreases |outcomes|
  {
    if outcomes == [] then []
    else
      var n := |outcomes| - 1;
      Entries(outcomes[..n]) + if outcomes[n].Some? then [outcomes[n].value] else []
  }

  /** The positions of the outcomes that are present: entry `j` comes from
      position `Present(o)[j]`, the positions ascend, and every present
      outcome has its entry. */
  function Present<T>(outcomes: seq<Option<T>>): (r: seq<nat>)
    ensures |r| == |Entries(outcomes)|
    ensures StrictlyAscending(r)
    ensures forall j | 0 <= j < |r| :: r[j] < |outcomes| && outcomes[r[j]] == Some(Entries(outcomes)[j])
    ensures forall p | 0 <= p < |outcomes| && outcomes[p].Some? :: p in r
    decreases |outcomes|
  {
    if outcomes == [] then []
    else
      var n := |outcomes| - 1;
      var init := outcomes[..n];
      var prev := Present(init);
      assert forall j | 0 <= j < |prev| :: init[prev[j]] == outcomes[prev[j]];
      assert forall p | 0 <= p < n :: init[p] == outcomes[p];
      prev + if outcomes[n].Some? then [n] else []
  }

  /** Appending found entries target by target. */
  lemma EntriesAppend<T>(a: seq<Option<T>>, b: seq<Option<T>>)
    ensures Entries(a + b) == Entries(a) + Entries(b)
    decreases |b|
  {
    if b == [] {
      assert a + b == a;
    } else {
      var n := |b| - 1;
      EntriesAppend(a, b[..n]);
      assert (a + b)[..|a + b| - 1] == a + b[..n];
    }
  }

  /** The output for a list of targets: the found entries, in target order. */
  function Selection<F>(trajectory: seq<F>, distance: (F, int, int) -> real, targets: seq<real>, atom1: int, atom2: int,
                        keyAtom: int, initialTolerance: real, secondaryTolerance: real): (r: seq<(nat, real)>)
    ensures |r| <= |targets|
  {
    Entries(Choices(trajectory, distance, targets, atom1, atom2, keyAtom, initialTolerance, secondaryTolerance))
  }

  /** The output for two lists of targets one after the other is the two
      outputs one after the other. */
  lemma SelectionAppend<F>(trajectory: seq<F>, distance: (F, int, int) -> real, a: seq<real>, b: seq<real>,
                           atom1: int, atom2: int, keyAtom: int, initialTolerance: real, secondaryTolerance: real)
    ensures Selection(trajectory, distance, a + b, atom1, atom2, keyAtom, initialTolerance, secondaryTolerance)
         == Selection(trajectory, distance, a, atom1, atom2, keyAtom, initialTolerance, secondaryTolerance)
          + Selection(trajectory, distance, b, atom1, atom2, keyAtom, initialTolerance, secondaryTolerance)
  {
    var ca := Choices(trajectory, distance, a, atom1, atom2, keyAtom, initialTolerance, secondaryTolerance);
    var cb := Choices(trajectory, distance, b, atom1, atom2, keyAtom, initialTolerance, secondaryTolerance);
    var cab := Choices(trajectory, distance, a + b, atom1, atom2, keyAtom, initialTolerance, secondaryTolerance);
    forall j | 0 <= j < |a + b| ensures cab[j] == (ca + cb)[j] {
      if j < |a| {
        assert (a + b)[j] == a[j];
      } else {
        assert (a + b)[j] == b[j - |a|];
      }
    }
    assert cab == ca + cb;
    EntriesAppend(ca, cb);
  }

  /** Entry `j` of the output belongs to target `p = Present(...)[j]`: the
      targets of the entries ascend (at most one entry per target, in target
      order), each entry is that target's choice, and every target with a
      frame within either tolerance has an entry; a target without one adds
      nothing. */
  lemma OnePerMatchedTarget<F>(trajectory: seq<F>, distance: (F, int, int) -> real, targets: seq<real>,
                               atom1: int, atom2: int, keyAtom: int, initialTolerance: real, secondaryTolerance: real)
    ensures var sel := Selection(trajectory, distance, targets, atom1, atom2, keyAtom, initialTolerance, secondaryTolerance);
            var pos := Present(Choices(trajectory, distance, targets, atom1, atom2, keyAtom, initialTolerance, secondaryTolerance));
            |pos| == |sel| && StrictlyAscending(pos)
            && (forall j | 0 <= j < |sel| :: pos[j] < |targets|
                  && Choose(trajectory, distance, atom1, atom2, keyAtom, targets[pos[j]], initialTolerance, secondaryTolerance) == Some(sel[j]))
            && (forall p | 0 <= p < |targets| ::
                  (AnyClose(trajectory, distance, atom1, atom2, targets[p], initialTolerance)
                   || AnyClose(trajectory, distance, atom1, atom2, targets[p], secondaryTolerance)) <==> p in pos)
  {
    EntriesFromChoices(trajectory, distance, targets, atom1, atom2, keyAtom, initialTolerance, secondaryTolerance);
    MatchedTargetsPresent(trajectory, distance, targets, atom1, atom2, keyAtom, initialTolerance, secondaryTolerance);
  }

  lemma EntriesFromChoices<F>(trajectory: seq<F>, distance: (F, int, int) -> real, targets: seq<real>,
                              atom1: int, atom2: int, keyAtom: int, initialTolerance: real, secondaryTolerance: real)
    ensures var o := Choices(trajectory, distance, targets, atom1, atom2, keyAtom, initialTolerance, secondaryTolerance);
            var sel, pos := Entries(o), Present(o);
            forall j | 0 <= j < |sel| :: pos[j] < |targets|
              && Choose(trajectory, distance, atom1, atom2, keyAtom, targets[pos[j]], initialTolerance, secondaryTolerance) == Some(sel[j])
  {
    var o := Choices(trajectory, distance, targets, atom1, atom2, keyAtom, initialTolerance, secondaryTolerance);
    var sel, pos := Entries(o), Present(o);
    forall j | 0 <= j < |sel|
      ensures pos[j] < |targets|
              && Choose(trajectory, distance, atom1, atom2, keyAtom, targets[pos[j]], initialTolerance, secondaryTolerance) == Some(sel[j])
    {
      assert o[pos[j]] == Some(sel[j]);
    }
  }

  lemma MatchedTargetsPresent<F>(trajectory: seq<F>, distance: (F, int, int) -> real, targets: seq<real>,
                                 atom1: int, atom2: int, keyAtom: int, initialTolerance: real, secondaryTolerance: real)
    ensures var pos := Present(Choices(trajectory, distance, targets, atom1, atom2, keyAtom, initialTolerance, secondaryTolerance));
            forall p | 0 <= p < |targets| ::
              (AnyClose(trajectory, distance, atom1, atom2, targets[p], initialTolerance)
               || AnyClose(trajectory, distance, atom1, atom2, targets[p], secondaryTolerance)) <==> p in pos
  {
    var o := Choices(trajectory, distance, targets, atom1, atom2, keyAtom, initialTolerance, secondaryTolerance);
    var pos := Present(o);
    forall p | 0 <= p < |targets|
      ensures (AnyClose(trajectory, distance, atom1, atom2, targets[p], initialTolerance)
               || AnyClose(trajectory, distance, atom1, atom2, targets[p], secondaryTolerance)) <==> p in pos
    {
      ChosenFrame(trajectory, distance, atom1, atom2, keyAtom, targets[p], initialTolerance, secondaryTolerance);
      assert o[p] == Choose(trajectory, distance, atom1, atom2, keyAtom, targets[p], initialTolerance, secondaryTolerance);
      if p in pos {
        var j :| 0 <= j < |pos| && pos[j] == p;
      }
    }
  }

  /** The two-atom variant records, for every entry, the smallest
      atom1-atom2 distance among the candidates of its target. */
  lemma TwoAtomRecordsMinimum<F>(trajectory: seq<F>, distance: (F, int, int) -> real, targets: seq<real>,
                                 atom1: int, atom2: int, initialTolerance: real, secondaryTolerance: real, j: nat)
    requires j < |Selection(trajectory, distance, targets, atom1, atom2, atom2, initialTolerance, secondaryTolerance)|
    ensures var sel := Selection(trajectory, distance, targets, atom1, atom2, atom2, initialTolerance, secondaryTolerance);
            var p := Present(Choices(trajectory, distance, targets, atom1, atom2, atom2, initialTolerance, secondaryTolerance))[j];
            p < |targets|
            && forall i | i in Candidates(trajectory, distance, atom1, atom2, targets[p], initialTolerance, secondaryTolerance) ::
                 sel[j].1 <= distance(trajectory[i], atom1, atom2)
  {
    OnePerMatchedTarget(trajectory, distance, targets, atom1, atom2, atom2, initialTolerance, secondaryTolerance);
    var p := Present(Choices(trajectory, distance, targets, atom1, atom2, atom2, initialTolerance, secondaryTolerance))[j];
    ChosenFrame(trajectory, distance, atom1, atom2, atom2, targets[p], initialTolerance, secondaryTolerance);
  }

  /** A frame's stored value, read as its distance. */
  function StoredDistance(frame: real, atom1: int, atom2: int): real {
    frame
  }

  /** Nothing stops two targets from choosing the same frame: with a single
      frame at 1.0, the targets 1.0 and 1.005 both select frame 0. */
  lemma SameFrameForTwoTargets()
    ensures Selection([1.0], StoredDistance, [1.0, 1.005], 0, 1, 1, 0.01, 0.02) == [(0, 1.0), (0, 1.0)]
  {
    var traj := [1.0];
    assert Close(StoredDistance(traj[0], 0, 1), 1.0, 0.01);
    assert Close(StoredDistance(traj[0], 0, 1), 1.005, 0.01);
    assert [1.0, 1.005][..1] == [1.0];
    assert traj[..0] == [];
    assert FramesWithinRange(traj, StoredDistance, 0, 1, 1.0, 0.01) == [0];
    assert FramesWithinRange(traj, StoredDistance, 0, 1, 1.005, 0.01) == [0];
    assert ArgMin(KeyDistances(traj, StoredDistance, [0], 0, 1)) == 0;
    var c: seq<Option<(nat, real)>> := Choices(traj, StoredDistance, [1.0, 1.005], 0, 1, 1, 0.01, 0.02);
    assert c[0] == Some((0, 1.0));
    assert c[1] == Some((0, 1.0));
    assert c[..1][..0] == [];
    assert Entries(c[..1]) == [(0, 1.0)];
  }

  /** The body of the loop over the targets: the frames within the initial
      tolerance, or within the secondary one when there are none, and among
      them the first with the smallest atom1-keyAtom distance, recorded with
      its atom1-atom2 distance. */
  method FrameForTarget<F>(trajectory: seq<F>, distance: (F, int, int) -> real, targetLength: real,
                           atom1: int, atom2: int, keyAtom: int, initialTolerance: real, secondaryTolerance: real)
    returns (found: Option<(nat, real)>)
    ensures found == Choose(trajectory, distance, atom1, atom2, keyAtom, targetLength, initialTolerance, secondaryTolerance)
  {
    var framesWithinRange := FramesWithinRange(trajectory, distance, atom1, atom2, targetLength, initialTolerance);
    if framesWithinRange == [] {
      // no frame within the initial tolerance: try the secondary one
      framesWithinRange := FramesWithinRange(trajectory, distance, atom1, atom2, targetLength, secondaryTolerance);
    }
    if framesWithinRange == [] {
      return None;
    }
    var frameWithMinBond := framesWithinRange[ArgMin(KeyDistances(trajectory, distance, framesWithinRange, atom1, keyAtom))];
    var bondDistance := distance(trajectory[frameWithMinBond], atom1, atom2);
    found := Some((frameWithMinBond, bondDistance));
  }

  /** One more outcome adds its entry when it is present. */
  lemma EntriesSnoc<T>(outcomes: seq<Option<T>>, j: nat)
    requires j < |outcomes|
    ensures Entries(outcomes[..j + 1])
         == Entries(outcomes[..j]) + if outcomes[j].Some? then [outcomes[j].value] else []
  {
    assert outcomes[..j + 1][..j] == outcomes[..j];
  }

  /** `find_target_frames_between_two_atoms`: for every target, the frame
      with the smallest atom1-atom2 distance among the candidates. */
  method FindTargetFramesBetweenTwoAtoms<F>(trajectory: seq<F>, distance: (F, int, int) -> real, targets: seq<real>,
                                            atom1: int, atom2: int, initialTolerance: real, secondaryTolerance: real)
    returns (targetFrames: seq<(nat, real)>)
    ensures targetFrames == Selection(trajectory, distance, targets, atom1, atom2, atom2, initialTolerance, secondaryTolerance)
  {
    targetFrames := [];
    ghost var choices := Choices(trajectory, distance, targets, atom1, atom2, atom2, initialTolerance, secondaryTolerance);
    assert choices[..0] == [];
    for j := 0 to |targets|
      invariant targetFrames == Entries(choices[..j])
    {
      var found := FrameForTarget(trajectory, distance, targets[j], atom1, atom2, atom2, initialTolerance, secondaryTolerance);
      EntriesSnoc(choices, j);
      if found.Some? {
        targetFrames := targetFrames + [found.value];
      }
    }
    assert choices[..|targets|] == choices;
  }

  /** `find_target_frames_with_third_atom`: for every target, the frame with
      the smallest atom1-atom3 distance among the candidates, recorded with
      its atom1-atom2 distance. */
  method FindTargetFramesWithThirdAtom<F>(trajectory: seq<F>, distance: (F, int, int) -> real, targets: seq<real>,
                                          atom1: int, atom2: int, atom3: int,
                                          initialTolerance: real, secondaryTolerance: real)
    returns (targetFrames: seq<(nat, real)>)
    ensures targetFrames == Selection(trajectory, distance, targets, atom1, atom2, atom3, initialTolerance, secondaryTolerance)
  {
    targetFrames := [];
    ghost var choices := Choices(trajectory, distance, targets, atom1, atom2, atom3, initialTolerance, secondaryTolerance);
    assert choices[..0] == [];
    for j := 0 to |targets|
      invariant targetFrames == Entries(choices[..j])
    {
      var found := FrameForTarget(trajectory, distance, targets[j], atom1, atom2, atom3, initialTolerance, secondaryTolerance);
      EntriesSnoc(choices, j);
      if found.Some? {
        targetFrames := targetFrames + [found.value];
      }
    }
    assert choices[..|targets|] == choices;
  }
}
