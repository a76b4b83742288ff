/** The kill switch (src/quant_platform/kill_switch.py): the last writer wins, and `deactivate_hard` takes two people. */
module KillSwitches {

  datatype KillLevel = Off | Soft | Hard

  function LevelName(level: KillLevel): string {
    match level
    case Off => "off"
    case Soft => "soft"
    case Hard => "hard"
  }

  /** Python's `strip`, over whatever counts as a blank. */
  function StripLeft(isSpace: char -> bool, s: string): string {
    if |s| > 0 && isSpace(s[0]) then StripLeft(isSpace, s[1..]) else s
  }

  function StripRight(isSpace: char -> bool, s: string): string {
    if |s| > 0 && isSpace(s[|s| - 1]) then StripRight(isSpace, s[..|s| - 1]) else s
  }

  function Strip(isSpace: char -> bool, s: string): string {
    StripRight(isSpace, StripLeft(isSpace, s))
  }

  ghost predicate AllBlank(isSpace: char -> bool, s: string) {
    forall k :: 0 <= k < |s| ==> isSpace(s[k])
  }

  lemma {:induction false} StripLeftMeans(isSpace: char -> bool, s: string) returns (l: string)
    ensures s == l + StripLeft(isSpace, s) && AllBlank(isSpace, l)
    ensures StripLeft(isSpace, s) != "" ==> !isSpace(StripLeft(isSpace, s)[0])
  {
    if |s| > 0 && isSpace(s[0]) {
      l := StripLeftMeans(isSpace, s[1..]);
      l := [s[0]] + l;
    } else {
      l := "";
    }
  }

  lemma {:induction false} StripRightMeans(isSpace: char -> bool, s: string) returns (r: string)
    ensures s == StripRight(isSpace, s) + r && AllBlank(isSpace, r)
    ensures var t := StripRight(isSpace, s); t != "" ==> !isSpace(t[|t| - 1]) && t[0] == s[0]
  {
    if |s| > 0 && isSpace(s[|s| - 1]) {
      r := StripRightMeans(isSpace, s[..|s| - 1]);
      assert s == s[..|s| - 1] + [s[|s| - 1]];
      r := r + [s[|s| - 1]];
    } else {
      r := "";
    }
  }

  /** A stripped text is what lies between the outer blanks, and begins and ends with none. */
  lemma StripMeans(isSpace: char -> bool, s: string) returns (l: string, r: string)
    ensures var t := Strip(isSpace, s);
            && s == l + t + r && AllBlank(isSpace, l) && AllBlank(isSpace, r)
            && (t != "" ==> !isSpace(t[0]) && !isSpace(t[|t| - 1]))
  {
    l := StripLeftMeans(isSpace, s);
    r := StripRightMeans(isSpace, StripLeft(isSpace, s));
  }

  /** One text that begins and ends with no blank, between blanks, is the only such text. */
  lemma StripOnly(isSpace: char -> bool, l: string, t: string, r: string, l': string, t': string, r': string)
    requires l + t + r == l' + t' + r'
    requires AllBlank(isSpace, l) && AllBlank(isSpace, r) && AllBlank(isSpace, l') && AllBlank(isSpace, r')
    requires t != "" && !isSpace(t[0]) && !isSpace(t[|t| - 1])
    requires t' == "" || (!isSpace(t'[0]) && !isSpace(t'[|t'| - 1]))
    ensures t == t'
  {
    var s, s' := l + t + r, l' + t' + r';
    assert s[|l|] == t[0] && s[|l| + |t| - 1] == t[|t| - 1];
    assert forall k :: 0 <= k < |l| ==> s[k] == l[k];
    assert forall k :: |l| + |t| <= k < |s| ==> s[k] == r[k - |l| - |t|];
    assert forall k :: 0 <= k < |l'| ==> s'[k] == l'[k];
    assert forall k :: |l'| + |t'| <= k < |s'| ==> s'[k] == r'[k - |l'| - |t'|];
    assert t' != "";
    assert s'[|l'|] == t'[0] && s'[|l'| + |t'| - 1] == t'[|t'| - 1];
    assert |l| == |l'| && |t| == |t'|;
    assert t == s[|l|..|l| + |t|] == t';
  }

  /** Texts that differ only in outer blanks are one. */
  lemma StripOuter(isSpace: char -> bool, l: string, s: string, r: string)
    requires AllBlank(isSpace, l) && AllBlank(isSpace, r)
    ensures Strip(isSpace, l + s + r) == Strip(isSpace, s)
  {
    var l1, r1 := StripMeans(isSpace, s);
    var l2, r2 := StripMeans(isSpace, l + s + r);
    var t, t' := Strip(isSpace, s), Strip(isSpace, l + s + r);
    assert (l + l1) + t + (r1 + r) == l + s + r == l2 + t' + r2;
    if t != "" {
      StripOnly(isSpace, l + l1, t, r1 + r, l2, t', r2);
    } else if t' != "" {
      StripOnly(isSpace, l2, t', r2, l + l1, t, r1 + r);
    }
  }

  /** The `unique` set of `deactivate_hard`. */
  function Approving(isSpace: char -> bool, approvers: seq<string>): set<string> {
    set a <- approvers | Strip(isSpace, a) != "" :: Strip(isSpace, a)
  }

  /** Two of the listed approvers are not blank and differ once blanks are stripped. */
  ghost predicate TwoPeople(isSpace: char -> bool, approvers: seq<string>) {
    exists a <- approvers, b <- approvers ::
      Strip(isSpace, a) != "" && Strip(isSpace, b) != "" && Strip(isSpace, a) != Strip(isSpace, b)
  }

  lemma TwoPersonRule(isSpace: char -> bool, approvers: seq<string>)
    ensures |Approving(isSpace, approvers)| >= 2 <==> TwoPeople(isSpace, approvers)
  {
    var u := Approving(isSpace, approvers);
    if |u| >= 2 {
      var x :| x in u;
      assert |u - {x}| == |u| - 1;
      var y :| y in u - {x};
      var a :| a in approvers && Strip(isSpace, a) == x;
      var b :| b in approvers && Strip(isSpace, b) == y;
    }
    if TwoPeople(isSpace, approvers) {
      var a, b :| a in approvers && b in approvers && Strip(isSpace, a) != "" && Strip(isSpace, b) != ""
                  && Strip(isSpace, a) != Strip(isSpace, b);
      assert {Strip(isSpace, a), Strip(isSpace, b)} <= u;
      Subset({Strip(isSpace, a), Strip(isSpace, b)}, u);
    }
  }

  lemma Subset(s: set<string>, t: set<string>)
    requires s <= t
    ensures |s| <= |t|
  {
    assert t == s + (t - s);
  }

  class KillSwitch {
    var level: KillLevel
    var reason: string

    constructor ()
      ensures level == Off && reason == ""
    {
      level, reason := Off, "";
    }

    method ActivateSoft(reason: string)
      modifies this
      ensures level == Soft && this.reason == reason
    {
      level, this.reason := Soft, reason;
    }

    method ActivateHard(reason: string)
      modifies this
      ensures level == Hard && this.reason == reason
    {
      level, this.reason := Hard, reason;
    }

    /** False stands for the ValueError. */
    method DeactivateHard(isSpace: char -> bool, reason: string, approvers: seq<string>) returns (ok: bool)
      modifies this
      ensures ok <==> TwoPeople(isSpace, approvers)
      ensures ok ==> level == Off && this.reason == reason
      ensures !ok ==> level == old(level) && this.reason == old(this.reason)
    {
      TwoPersonRule(isSpace, approvers);
      if |Approving(isSpace, approvers)| < 2 {
        return false;
      }
      level, this.reason := Off, reason;
      ok := true;
    }

    method ClearSoft(reason: string)
      modifies this
      ensures level == Off && this.reason == reason
    {
      level, this.reason := Off, reason;
    }

    predicate Active()
      reads this
    {
      level == Soft || level == Hard
    }
  }
}
