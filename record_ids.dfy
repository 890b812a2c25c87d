/**
 * How both stores choose the Id of a new record: `Math.max(...ids) + 1`.
 *
 * As written, `Math.max()` of no argument is -Infinity, and -Infinity + 1 is still
 * -Infinity, so a store that has been emptied hands out -Infinity for every record
 * created next; `parseInt(String(-Infinity))` is NaN, so no later lookup finds them.
 * `NextIdAsWritten` models that; `NextId` is the intended rule (1 for an empty store,
 * and max + 1 otherwise, which agrees with the source wherever the source is defined),
 * and it is the one the stores use.
 */
module RecordIds {
  import opened Wrappers
  import Text

  /** A JavaScript number as `Math.max` and `+ 1` meet it here: an integer or -Infinity. */
  datatype Extended = NegInfinity | Finite(n: int)

  predicate AtMost(a: Extended, b: Extended) {
    a.NegInfinity? || (b.Finite? && a.n <= b.n)
  }

  function Larger(a: Extended, b: Extended): Extended {
    if AtMost(a, b) then b else a
  }

  /** `Math.max(...ids)`: -Infinity for no argument. */
  function MaxAsWritten(ids: seq<Extended>): (r: Extended)
    ensures forall i :: 0 <= i < |ids| ==> AtMost(ids[i], r)
    ensures r.NegInfinity? || r in ids
  {
    if ids == [] then NegInfinity
    else Larger(MaxAsWritten(ids[..|ids| - 1]), ids[|ids| - 1])
  }

  /** `x + 1` on a JavaScript number: -Infinity absorbs the addition. */
  function PlusOne(x: Extended): (r: Extended)
    ensures r.NegInfinity? <==> x.NegInfinity?
    ensures x.Finite? ==> r.n == x.n + 1
  {
    match x
    case NegInfinity => NegInfinity
    case Finite(n) => Finite(n + 1)
  }

  /** `Math.max(...records.map(r => r.Id)) + 1`, as written. */
  function NextIdAsWritten(ids: seq<Extended>): (r: Extended)
    ensures r.NegInfinity? <==> forall i :: 0 <= i < |ids| ==> ids[i].NegInfinity?
    ensures r.Finite? ==> forall i :: 0 <= i < |ids| && ids[i].Finite? ==> ids[i].n < r.n
  {
    PlusOne(MaxAsWritten(ids))
  }

  /** The Ids of a store whose every record has an integer Id, as JavaScript numbers. */
  function Lift(ids: seq<int>): (r: seq<Extended>)
    ensures |r| == |ids| && forall i :: 0 <= i < |ids| ==> r[i] == Finite(ids[i])
  {
    seq(|ids|, i requires 0 <= i < |ids| => Finite(ids[i]))
  }

  /**
   * After every record has been deleted, each of the next `n` creates is given
   * -Infinity: the first finds no Id, the later ones find only -Infinity.
   */
  lemma {:induction false} EmptiedStoreRepeatsId(n: nat)
    ensures NextIdAsWritten(seq(n, _ => NegInfinity)) == NegInfinity
  {
    var ids: seq<Extended> := seq(n, _ => NegInfinity);
    if n > 0 {
      EmptiedStoreRepeatsId(n - 1);
      assert ids[..n - 1] == seq(n - 1, _ => NegInfinity);
    }
  }

  /** The Id -Infinity reads back as NaN (`parseInt("-Infinity")`), which equals no Id. */
  lemma NegInfinityIdUnreadable()
    ensures Text.ParseInt("-Infinity") == None
  {
    var s := "-Infinity";
    assert !Text.IsWhitespace(s[0]);
    assert Text.TrimStart(s) == s;
    assert s[1..] == "Infinity";
    assert !Text.IsDigit(s[1]);
  }

  /** The largest Id of a non-empty store. */
  function MaxId(ids: seq<int>): (r: int)
    requires ids != []
    ensures r in ids && forall i :: 0 <= i < |ids| ==> ids[i] <= r
  {
    if |ids| == 1 then ids[0]
    else
      var m := MaxId(ids[..|ids| - 1]);
      assert forall i :: 0 <= i < |ids| - 1 ==> ids[..|ids| - 1][i] == ids[i];
      if ids[|ids| - 1] <= m then m else ids[|ids| - 1]
  }

  /**
   * The Id a new record gets: one more than the largest Id present, and 1 for an
   * empty store.
   */
  function NextId(ids: seq<int>): (r: int)
    ensures forall i :: 0 <= i < |ids| ==> ids[i] < r
    ensures ids != [] ==> r - 1 in ids
    ensures ids == [] ==> r == 1
  {
    if ids == [] then 1 else MaxId(ids) + 1
  }

  /** Wherever the source's rule gives a number, the corrected rule gives the same one. */
  lemma NextIdAgreesWithSource(ids: seq<int>)
    requires ids != []
    ensures NextIdAsWritten(Lift(ids)) == Finite(NextId(ids))
  {
    LiftedMax(ids);
  }

  /** On integer Ids, `Math.max` is the largest Id. */
  lemma {:induction false} LiftedMax(ids: seq<int>)
    requires ids != []
    ensures MaxAsWritten(Lift(ids)) == Finite(MaxId(ids))
  {
    var l := Lift(ids);
    if |ids| > 1 {
      LiftedMax(ids[..|ids| - 1]);
      assert l[..|ids| - 1] == Lift(ids[..|ids| - 1]);
    } else {
      assert l[..0] == [];
    }
  }
}
