/**
  The two three-arm, two-type scenarios the experiment driver builds, with
  their structural and reduced-form means worked out exactly.
 */
module Scenarios {
  import opened Vectors
  import opened Environment

  /** Type 0 complies fully; type 1 takes treatment 0 when offered 0 or 1, and 1 when offered 2. */
  function Example1(): Params
  {
    Params(3, [[0, 1, 2], [0, 0, 1]], [5.0 / 8.0, 3.0 / 8.0], [[1.0, -1.0, 0.0], [-4.0, 0.0, -2.0]])
  }

  /** Type 0 complies fully; type 1 takes treatment 1 when offered 0 or 1, and 0 when offered 2. */
  function Example2(): Params
  {
    Params(3, [[0, 1, 2], [1, 1, 0]], [1.0 / 4.0, 3.0 / 4.0], [[-2.0, -4.0, -3.0], [3.0, 1.0, 2.0]])
  }

  /**
    In the first scenario treatment 1 is the best to assign directly, but
    instrument 2 is the best to offer: regret against the two baselines
    differs.
   */
  lemma Example1Means()
    ensures Example1().WellShaped()
    ensures MuX(Example1()) == [-7.0 / 8.0, -5.0 / 8.0, -3.0 / 4.0]
    ensures MuZ(Example1()) == [-7.0 / 8.0, -17.0 / 8.0, 0.0]
    ensures Argmax(MuX(Example1())) == 1
    ensures Argmax(MuZ(Example1())) == 2
  {
    var p := Example1();
    assert MuXPrefix(p, 0, 2) == -7.0 / 8.0;
    assert MuXPrefix(p, 1, 2) == -5.0 / 8.0;
    assert MuXPrefix(p, 2, 2) == -3.0 / 4.0;
    assert MuZPrefix(p, 0, 2) == -7.0 / 8.0;
    assert MuZPrefix(p, 1, 2) == -17.0 / 8.0;
    assert MuZPrefix(p, 2, 2) == 0.0;
    ArgmaxUnique([-7.0 / 8.0, -5.0 / 8.0, -3.0 / 4.0], 1);
    ArgmaxUnique([-7.0 / 8.0, -17.0 / 8.0, 0.0], 2);
  }

  /** In the second scenario treatment 0 is best to assign, instrument 2 best to offer. */
  lemma Example2Means()
    ensures Example2().WellShaped()
    ensures MuX(Example2()) == [7.0 / 4.0, -1.0 / 4.0, 3.0 / 4.0]
    ensures MuZ(Example2()) == [1.0 / 4.0, -1.0 / 4.0, 3.0 / 2.0]
    ensures Argmax(MuX(Example2())) == 0
    ensures Argmax(MuZ(Example2())) == 2
  {
    var p := Example2();
    assert MuXPrefix(p, 0, 2) == 7.0 / 4.0;
    assert MuXPrefix(p, 1, 2) == -1.0 / 4.0;
    assert MuXPrefix(p, 2, 2) == 3.0 / 4.0;
    assert MuZPrefix(p, 0, 2) == 1.0 / 4.0;
    assert MuZPrefix(p, 1, 2) == -1.0 / 4.0;
    assert MuZPrefix(p, 2, 2) == 3.0 / 2.0;
    ArgmaxUnique([7.0 / 4.0, -1.0 / 4.0, 3.0 / 4.0], 0);
    ArgmaxUnique([1.0 / 4.0, -1.0 / 4.0, 3.0 / 2.0], 2);
  }
}
