/**
 * Random tokens drawn until one is unused. `uuid.uuid4().hex` is modelled
 * by the sequence of values the generator would produce, given by the
 * caller; the loops of the bot stop at the first one not already taken.
 */
module Fresh {

  /** Some candidate is free: the generator does not repeat taken values forever. */
  predicate SomeFree(candidates: seq<string>, taken: set<string>) {
    exists j :: 0 <= j < |candidates| && candidates[j] !in taken
  }

  /** The position of the token the retry loop settles on. */
  function FirstFree(candidates: seq<string>, taken: set<string>): (i: nat)
    requires SomeFree(candidates, taken)
    ensures i < |candidates| && candidates[i] !in taken
    ensures forall j :: 0 <= j < i ==> candidates[j] in taken
  {
    if candidates[0] !in taken then 0
    else
      assert SomeFree(candidates[1..], taken) by {
        var j :| 0 <= j < |candidates| && candidates[j] !in taken;
        assert candidates[1..][j - 1] == candidates[j];
      }
      1 + FirstFree(candidates[1..], taken)
  }
}
