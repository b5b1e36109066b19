/**
 * The remaining-places label shared by the home page, the course list and
 * the teacher's course list: with `remaining = capacity - bookedCount`, at
 * most five places left gives a short warning text, otherwise the
 * `remaining/capacity` form.
 */
module Capacity {
  import opened Text

  const FewPlaces := 5

  function Remaining(capacity: int, booked: int): int {
    capacity - booked
  }

  /**
   * The label: `<prefix><remaining>名额` when few places are left, else
   * `<remaining>/<capacity>名额`. The home page's prefix is `剩余`, the other
   * pages' is `仅剩`.
   */
  function RemainingText(prefix: string, capacity: int, booked: int): (r: string)
  {
    var remaining := Remaining(capacity, booked);
    if remaining <= FewPlaces then prefix + IntToString(remaining) + "名额"
    else IntToString(remaining) + "/" + IntToString(capacity) + "名额"
  }

  /** `text-warning` when few places are left, else `text-small`. */
  function RemainingClass(capacity: int, booked: int): (r: string)
  {
    if Remaining(capacity, booked) <= FewPlaces then "text-warning" else "text-small"
  }

  /** The two forms are told apart by the slash, and the warning class goes with the short form. */
  lemma {:induction false} TextAgreesWithClass(prefix: string, capacity: int, booked: int)
    requires '/' !in prefix
    ensures '/' in RemainingText(prefix, capacity, booked) <==> RemainingClass(capacity, booked) == "text-small"
  {
    var remaining := Remaining(capacity, booked);
    var n := IntToString(remaining);
    assert '/' !in n by {
      if remaining < 0 {
        assert n == "-" + NatToString(-remaining);
      }
    }
    if remaining <= FewPlaces {
      var r := prefix + n + "名额";
      assert forall i :: 0 <= i < |r| ==> r[i] != '/' by {
        forall i | 0 <= i < |r|
          ensures r[i] != '/'
        {
          if i < |prefix| {
            assert r[i] == prefix[i];
          } else if i < |prefix| + |n| {
            assert r[i] == n[i - |prefix|];
          } else {
            assert r[i] == "名额"[i - |prefix| - |n|];
          }
        }
      }
    } else {
      var r := n + "/" + IntToString(capacity) + "名额";
      assert r[|n|] == '/';
    }
  }

  /** The short form names the number of places left and nothing else: reading the digits after the prefix gives it back. */
  lemma ShortFormCount(prefix: string, capacity: int, booked: int)
    requires 0 <= Remaining(capacity, booked) <= FewPlaces
    ensures RemainingText(prefix, capacity, booked) == prefix + [DigitChar(Remaining(capacity, booked))] + "名额"
    ensures DigitValue(RemainingText(prefix, capacity, booked)[|prefix|]) == Remaining(capacity, booked)
  {
    DigitRoundTrip(Remaining(capacity, booked));
  }

  /** The long form starts with the places left, then the slash and the capacity. */
  lemma LongFormFields(prefix: string, capacity: int, booked: int)
    requires Remaining(capacity, booked) > FewPlaces && booked >= 0
    ensures Split(RemainingText(prefix, capacity, booked)[..|RemainingText(prefix, capacity, booked)| - 2], '/')
      == [NatToString(capacity - booked), NatToString(capacity)]
  {
    var a := NatToString(capacity - booked);
    var b := NatToString(capacity);
    var r := RemainingText(prefix, capacity, booked);
    assert r == a + "/" + b + "名额";
    assert r[..|r| - 2] == Join([a, b], "/");
    SplitJoin([a, b], '/');
  }
}
