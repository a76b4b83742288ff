/** Small notions several modules share. */
module Common {

  datatype Option<+T> = None | Some(value: T)

  /** No element twice. */
  ghost predicate Distinct<T>(s: seq<T>) {
    forall i, j :: 0 <= i < j < |s| ==> s[i] != s[j]
  }

  lemma DistinctSnoc<T>(s: seq<T>, x: T)
    requires Distinct(s + [x])
    ensures Distinct(s) && x !in s
  {
    var t := s + [x];
    forall i, j | 0 <= i < j < |s| ensures s[i] != s[j] {
      assert t[i] != t[j];
    }
    forall i | 0 <= i < |s| ensures s[i] != x {
      assert t[i] != t[|s|];
    }
  }

  /** The severity words in rising order; any other word stands below them all. */
  const SEVERITIES := ["low", "medium", "high", "critical"]

  ghost predicate AsSevere(word: string, floor: string) {
    forall i :: 0 <= i < |SEVERITIES| && floor == SEVERITIES[i] ==> exists j :: i <= j < |SEVERITIES| && word == SEVERITIES[j]
  }

  /** The position of a word, one for the lowest; zero for any other word. */
  function Severity(word: string): int {
    if word == "critical" then 4
    else if word == "high" then 3
    else if word == "medium" then 2
    else if word == "low" then 1
    else 0
  }

  lemma SeverityPosition(word: string)
    ensures 0 <= Severity(word) <= |SEVERITIES|
    ensures Severity(word) > 0 ==> word == SEVERITIES[Severity(word) - 1]
    ensures forall i :: 0 <= i < |SEVERITIES| && word == SEVERITIES[i] ==> Severity(word) == i + 1
  {
    assert |"low"| == 3 && |"high"| == 4 && |"medium"| == 6 && |"critical"| == 8;
  }

  /** Comparing positions is comparing words. */
  lemma SeverityOrder(word: string, floor: string)
    ensures Severity(word) >= Severity(floor) <==> AsSevere(word, floor)
  {
    SeverityPosition(word);
    SeverityPosition(floor);
    if Severity(floor) > 0 && Severity(word) >= Severity(floor) {
      assert word == SEVERITIES[Severity(word) - 1];
    }
  }
}
