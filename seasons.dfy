/** `get_season`: the fixed regional mapping from a calendar month number to
    one of four season labels (main.py lines 127-135). */
module Seasons {

  const Winter: string := "Winter"
  const Summer: string := "Summer"
  const Monsoon: string := "Monsoon"
  const PostMonsoon: string := "Post-Monsoon"

  /** The four labels `get_season` can return. */
  const Labels: set<string> := {Winter, Summer, Monsoon, PostMonsoon}

  /** Total on every integer; the membership tests are tried in order and
      anything outside the first three lists (including months outside
      1..12) is "Post-Monsoon". */
  function GetSeason(m: int): (s: string)
    ensures s in Labels
    ensures s == Winter <==> m == 12 || m == 1 || m == 2
    ensures s == Summer <==> 3 <= m <= 5
    ensures s == Monsoon <==> 6 <= m <= 9
    ensures s == PostMonsoon <==> !(1 <= m <= 9 || m == 12)
  {
    if m in [12, 1, 2] then Winter
    else if m in [3, 4, 5] then Summer
    else if m in [6, 7, 8, 9] then Monsoon
    else PostMonsoon
  }

  /** The calendar months that fall in a season. */
  function MonthsOf(season: string): (ms: set<int>)
    ensures forall m :: m in ms ==> 1 <= m <= 12 && GetSeason(m) == season
  {
    set m | 1 <= m <= 12 && GetSeason(m) == season
  }

  /** On the twelve calendar months, the four seasons cover 3, 3, 4 and 2
      months and together partition the year. */
  lemma SeasonTable()
    ensures MonthsOf(Winter) == {12, 1, 2}
    ensures MonthsOf(Summer) == {3, 4, 5}
    ensures MonthsOf(Monsoon) == {6, 7, 8, 9}
    ensures MonthsOf(PostMonsoon) == {10, 11}
  {
    assert MonthsOf(Winter) == {12, 1, 2} by {
      forall m | m in {12, 1, 2} ensures m in MonthsOf(Winter) {
        assert GetSeason(m) == Winter;
      }
    }
    assert MonthsOf(Summer) == {3, 4, 5} by {
      forall m | m in {3, 4, 5} ensures m in MonthsOf(Summer) {
        assert GetSeason(m) == Summer;
      }
    }
    assert MonthsOf(Monsoon) == {6, 7, 8, 9} by {
      forall m | m in {6, 7, 8, 9} ensures m in MonthsOf(Monsoon) {
        assert GetSeason(m) == Monsoon;
      }
    }
    assert MonthsOf(PostMonsoon) == {10, 11} by {
      forall m | m in {10, 11} ensures m in MonthsOf(PostMonsoon) {
        assert GetSeason(m) == PostMonsoon;
      }
    }
  }
}
