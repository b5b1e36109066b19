/**
 * Dance-type ids and their display names. The teacher list knows four
 * names, the admin pages five (with popping); an id without a name is
 * shown as it is. Several ids are shown joined by a separator.
 */
module DanceTypes {
  import opened Text

  const ListNames: map<string, string> := map[
    "jazz" := "爵士舞",
    "kpop" := "韩舞",
    "hiphop" := "街舞",
    "waacking" := "Waacking"
  ]

  const ManageNames: map<string, string> := ListNames["popping" := "Popping"]

  /** `names[id] || id`. */
  function NameOf(names: map<string, string>, id: string): (r: string)
  {
    if id in names && names[id] != "" then names[id] else id
  }

  /** `ids.map(id => names[id] || id)`. */
  function NamesOf(names: map<string, string>, ids: seq<string>): (r: seq<string>)
    ensures |r| == |ids| && forall i :: 0 <= i < |ids| ==> r[i] == NameOf(names, ids[i])
  {
    seq(|ids|, i requires 0 <= i < |ids| => NameOf(names, ids[i]))
  }

  /** `formatDanceTypes`: the names joined by `sep`. */
  function Format(names: map<string, string>, ids: seq<string>, sep: string): (r: string)
  {
    Join(NamesOf(names, ids), sep)
  }

  /** How many times `c` occurs in `s`. */
  function Occurrences(s: string, c: char): (n: nat)
    ensures n <= |s|
    decreases |s|
  {
    if s == [] then 0 else (if s[0] == c then 1 else 0) + Occurrences(s[1..], c)
  }

  lemma {:induction false} OccurrencesConcat(a: string, b: string, c: char)
    ensures Occurrences(a + b, c) == Occurrences(a, c) + Occurrences(b, c)
    decreases |a|
  {
    if a != [] {
      assert (a + b)[1..] == a[1..] + b;
      OccurrencesConcat(a[1..], b, c);
    } else {
      assert a + b == b;
    }
  }

  lemma {:induction false} OccurrencesAbsent(s: string, c: char)
    requires c !in s
    ensures Occurrences(s, c) == 0
    decreases |s|
  {
    if s != [] {
      assert forall i :: 0 <= i < |s[1..]| ==> s[1..][i] == s[i + 1];
      OccurrencesAbsent(s[1..], c);
    }
  }

  /** The known names never contain a slash. */
  lemma NamesHaveNoSlash(names: map<string, string>, id: string)
    requires names == ListNames || names == ManageNames
    requires '/' !in id
    ensures '/' !in NameOf(names, id)
  {
  }

  /**
   * When no id contains a slash, the text holds exactly one slash fewer
   * than there are ids, so every id shows up as its own segment.
   */
  lemma {:induction false} OneSlashBetweenTypes(names: map<string, string>, ids: seq<string>)
    requires names == ListNames || names == ManageNames
    requires |ids| > 0 && forall i :: 0 <= i < |ids| ==> '/' !in ids[i]
    ensures Occurrences(Format(names, ids, " / "), '/') == |ids| - 1
    decreases |ids|
  {
    var ns := NamesOf(names, ids);
    NamesHaveNoSlash(names, ids[0]);
    if |ids| == 1 {
      OccurrencesAbsent(ns[0], '/');
    } else {
      OneSlashBetweenTypes(names, ids[1..]);
      assert NamesOf(names, ids[1..]) == ns[1..];
      assert Format(names, ids, " / ") == ns[0] + " / " + Format(names, ids[1..], " / ");
      OccurrencesAbsent(ns[0], '/');
      OccurrencesConcat(ns[0], " / ", '/');
      OccurrencesConcat(ns[0] + " / ", Format(names, ids[1..], " / "), '/');
      assert Occurrences(" / ", '/') == 1 by {
        assert " / "[1..] == "/ ";
        assert "/ "[1..] == " ";
        assert " "[1..] == "";
      }
    }
  }

  /** A named id shows its name, an unnamed one shows itself; the admin table only adds popping. */
  lemma NamesAndFallback(id: string)
    ensures id in ListNames ==> NameOf(ListNames, id) == ListNames[id] && NameOf(ManageNames, id) == ListNames[id]
    ensures id !in ManageNames ==> NameOf(ListNames, id) == id && NameOf(ManageNames, id) == id
    ensures NameOf(ListNames, "popping") == "popping" && NameOf(ManageNames, "popping") == "Popping"
  {
  }

  /** The `'、'` join of the teacher detail page splits back into the list when no type contains the separator. */
  lemma DetailJoinRoundTrip(types: seq<string>)
    requires |types| > 0 && forall i :: 0 <= i < |types| ==> '、' !in types[i]
    ensures Split(Join(types, "、"), '、') == types
  {
    SplitJoin(types, '、');
  }
}
