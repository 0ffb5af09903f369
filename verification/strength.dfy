/** The password-strength meter of src/pages/SignUp.tsx: `calculateStrength`
    scores a password from six criteria worth 20 each, picks a label for the
    score, and a bar of five segments lights those below the score. */
module Strength {
  import opened Optional

  /** `[A-Z]` */
  predicate IsUpper(c: char) {
    'A' <= c <= 'Z'
  }

  /** `[0-9]` */
  predicate IsDigit(c: char) {
    '0' <= c <= '9'
  }

  /** `[\W_]`: any character that is not an ASCII letter or digit. */
  predicate IsSpecial(c: char) {
    !('a' <= c <= 'z') && !IsUpper(c) && !IsDigit(c)
  }

  predicate HasUpper(s: string) {
    exists i :: 0 <= i < |s| && IsUpper(s[i])
  }

  predicate HasDigit(s: string) {
    exists i :: 0 <= i < |s| && IsDigit(s[i])
  }

  predicate HasSpecial(s: string) {
    exists i :: 0 <= i < |s| && IsSpecial(s[i])
  }

  /** The score, accumulated in the order of the source's six tests. */
  function Score(password: string): (score: int)
    ensures 0 <= score <= 120 && score % 20 == 0
    ensures |password| < 4 ==> score <= 40
  {
    var n := |password|;
    var s1 := if n >= 4 then 20 else 0;
    var s2 := if n >= 8 then s1 + 20 else s1;
    var s3 := if n >= 12 then s2 + 20 else s2;
    var s4 := if HasUpper(password) && n >= 4 then s3 + 20 else s3;
    var s5 := if HasDigit(password) then s4 + 20 else s4;
    if HasSpecial(password) then s5 + 20 else s5
  }

  /** The six criteria, each worth 20 points. An uppercase letter only counts
      from four characters on. */
  function Criteria(password: string): seq<bool> {
    [ |password| >= 4,
      |password| >= 8,
      |password| >= 12,
      HasUpper(password) && |password| >= 4,
      HasDigit(password),
      HasSpecial(password) ]
  }

  function CountTrue(bs: seq<bool>): nat {
    if bs == [] then 0 else (if bs[0] then 1 else 0) + CountTrue(bs[1..])
  }

  /** The label `calculateStrength` sets for a score; no branch matches a
      negative score, which leaves the previous label in place. */
  function Label(score: int): (name: Option<string>)
    ensures name.None? <==> score < 0
    ensures name == Some("") <==> score == 0
  {
    if score == 0 then Some("")
    else if 0 < score <= 20 then Some("Too weak")
    else if 20 < score <= 40 then Some("Could be better")
    else if 40 < score <= 60 then Some("Ok")
    else if 60 < score <= 80 then Some("Strong")
    else if score > 80 then Some("Very strong")
    else None
  }

  /** The label for each number of satisfied criteria. */
  const LabelNames: seq<string> := ["", "Too weak", "Could be better", "Ok", "Strong", "Very strong", "Very strong"]

  /** The meter's two pieces of state: `strengthText` and `strengthPercentage`. */
  datatype Meter = Meter(text: string, percentage: int)

  /** The meter before and right after mounting (`calculateStrength("")`). */
  const InitialMeter: Meter := Meter("", 0)

  /** `calculateStrength(password)` as a state update of the meter. */
  function CalculateStrength(m: Meter, password: string): (r: Meter)
    ensures CountTrue(Criteria(password)) < |LabelNames|
    ensures r.percentage == 20 * CountTrue(Criteria(password))
    ensures r.text == LabelNames[CountTrue(Criteria(password))]
    ensures r.text == "" <==> r.percentage == 0
  {
    ScoreCountsCriteria(password);
    LabelByCriteria(password);
    var score := Score(password);
    var text := match Label(score) case Some(t) => t case None => m.text;
    Meter(text, score)
  }

  /** Segment `index` of the bar is lit when the percentage exceeds `20 * index`. */
  predicate BarLit(percentage: int, index: nat) {
    percentage > index * 20
  }

  function Min(a: int, b: int): int {
    if a <= b then a else b
  }

  /** How many of the first `k` segments are lit. */
  function LitBars(percentage: int, k: nat): (n: nat)
    ensures n == if percentage <= 0 then 0 else Min(k, (percentage + 19) / 20)
  {
    if k == 0 then 0
    else LitBars(percentage, k - 1) + (if BarLit(percentage, k - 1) then 1 else 0)
  }

  // ---------------------------------------------------------------------
  // Properties
  // ---------------------------------------------------------------------

  /** The score is 20 times the number of satisfied criteria. */
  lemma ScoreCountsCriteria(password: string)
    ensures Score(password) == 20 * CountTrue(Criteria(password))
  {
    var c := Criteria(password);
    var c1, c2, c3, c4, c5 := c[1..], c[2..], c[3..], c[4..], c[5..];
    assert c1[1..] == c2 && c2[1..] == c3 && c3[1..] == c4 && c4[1..] == c5 && c5[1..] == [];
    assert CountTrue(c5) == (if c[5] then 1 else 0);
    assert CountTrue(c4) == (if c[4] then 1 else 0) + CountTrue(c5);
    assert CountTrue(c3) == (if c[3] then 1 else 0) + CountTrue(c4);
    assert CountTrue(c2) == (if c[2] then 1 else 0) + CountTrue(c3);
    assert CountTrue(c1) == (if c[1] then 1 else 0) + CountTrue(c2);
  }

  /** The label names the number of satisfied criteria. */
  lemma LabelByCriteria(password: string)
    ensures CountTrue(Criteria(password)) < |LabelNames|
    ensures Label(Score(password)) == Some(LabelNames[CountTrue(Criteria(password))])
  {
    ScoreCountsCriteria(password);
    var c := Criteria(password);
    assert CountTrue(c) <= |c| by {
      CountTrueBound(c);
    }
  }

  lemma {:induction false} CountTrueBound(bs: seq<bool>)
    ensures CountTrue(bs) <= |bs|
  {
    if bs != [] {
      CountTrueBound(bs[1..]);
    }
  }

  /** An uppercase letter in a password shorter than four characters earns
      nothing: `Ab` scores 0 and has the empty label. */
  lemma ShortUpperEarnsNothing()
    ensures Score("Ab") == 0
    ensures Label(Score("Ab")) == Some("")
  {
  }

  /** Characters present in a password are present in any extension of it. */
  lemma ExtensionKeepsClasses(password: string, more: string)
    ensures HasUpper(password) ==> HasUpper(password + more)
    ensures HasDigit(password) ==> HasDigit(password + more)
    ensures HasSpecial(password) ==> HasSpecial(password + more)
  {
    var longer := password + more;
    forall i | 0 <= i < |password| ensures longer[i] == password[i] {
    }
  }

  /** Typing more characters never lowers the score. */
  lemma ScoreMonotone(password: string, more: string)
    ensures Score(password) <= Score(password + more)
  {
    ExtensionKeepsClasses(password, more);
  }

  /** The number of lit segments for a password's score is its number of
      satisfied criteria, capped at five. */
  lemma LitBarsOfScore(password: string)
    ensures LitBars(Score(password), 5) == Min(5, Score(password) / 20)
    ensures LitBars(Score(password), 5) == Min(5, CountTrue(Criteria(password)))
  {
    ScoreCountsCriteria(password);
  }

  /** Lit segments form a prefix of the bar. */
  lemma LitBarsArePrefix(percentage: int, i: nat, j: nat)
    requires i <= j && BarLit(percentage, j)
    ensures BarLit(percentage, i)
  {
  }

  /** Mounting the form leaves the meter blank. */
  lemma MountedMeterIsBlank()
    ensures CalculateStrength(InitialMeter, "") == InitialMeter
  {
  }
}
