/**
 * The password strength meter: seven checks add one point each, the raw
 * score is scaled to 0-100, and the scaled score picks the label, the bar
 * colour and the text colour.
 */
module PasswordStrength {

  predicate IsLowerLetter(c: char) { 'a' <= c <= 'z' }
  predicate IsUpperLetter(c: char) { 'A' <= c <= 'Z' }
  predicate IsDigit(c: char) { '0' <= c <= '9' }
  /** `[^a-zA-Z0-9]` */
  predicate IsOther(c: char) { !IsLowerLetter(c) && !IsUpperLetter(c) && !IsDigit(c) }

  /** The regular expression test: some character of the password is in the class. */
  predicate HasSome(s: string, inClass: char -> bool)
  {
    exists i :: 0 <= i < |s| && inClass(s[i])
  }

  function Point(b: bool): nat { if b then 1 else 0 }

  /** The number of checks the password passes. */
  function RawScore(s: string): (r: nat)
    ensures r <= 7
  {
    Point(|s| >= 6) + Point(|s| >= 8) + Point(|s| >= 12)
    + Point(HasSome(s, IsLowerLetter)) + Point(HasSome(s, IsUpperLetter))
    + Point(HasSome(s, IsDigit)) + Point(HasSome(s, IsOther))
  }

  /** `Math.min((score / 7) * 100, 100)` on exact reals. */
  function Normalised(raw: nat): (r: real)
    ensures raw <= 7 ==> 0.0 <= r <= 100.0
    ensures r == if (raw as real) / 7.0 * 100.0 < 100.0 then (raw as real) / 7.0 * 100.0 else 100.0
  {
    var scaled := (raw as real) / 7.0 * 100.0;
    if scaled < 100.0 then scaled else 100.0
  }

  datatype Band = Weak | Fair | Good | Strong

  function BandOf(score: real): Band
  {
    if score < 30.0 then Weak else if score < 50.0 then Fair else if score < 75.0 then Good else Strong
  }

  function LabelOf(b: Band): string
  {
    match b
    case Weak => "Weak"
    case Fair => "Fair"
    case Good => "Good"
    case Strong => "Strong"
  }

  function BarColourOf(b: Band): string
  {
    match b
    case Weak => "bg-destructive"
    case Fair => "bg-warning"
    case Good => "bg-primary"
    case Strong => "bg-success"
  }

  function TextColourOf(b: Band): string
  {
    match b
    case Weak => "text-destructive"
    case Fair => "text-warning"
    case Good => "text-primary"
    case Strong => "text-success"
  }

  /** The label text's colour classes: each one present when its own range test holds. */
  function TextClasses(score: real): seq<string>
  {
    (if score < 30.0 then ["text-destructive"] else [])
    + (if score >= 30.0 && score < 50.0 then ["text-warning"] else [])
    + (if score >= 50.0 && score < 75.0 then ["text-primary"] else [])
    + (if score >= 75.0 then ["text-success"] else [])
  }

  /** The label's text colour is exactly one class, the one of the label's band. */
  lemma TextColourAgreesWithBand(score: real)
    ensures TextClasses(score) == [TextColourOf(BandOf(score))]
  {
  }

  /**
   * The memoised computation: an empty password scores 0 with no label and no
   * colour; any other password gets its points one check at a time, and the
   * scaled score picks label and colour through the if-chain.
   */
  method Strength(password: string) returns (score: real, name: string, colour: string)
    ensures password == "" ==> score == 0.0 && name == "" && colour == ""
    ensures password != "" ==> score == Normalised(RawScore(password))
    ensures password != "" ==> name == LabelOf(BandOf(score)) && colour == BarColourOf(BandOf(score))
    ensures 0.0 <= score <= 100.0
  {
    if password == "" {
      return 0.0, "", "";
    }
    var points := 0;
    if |password| >= 6 { points := points + 1; }
    if |password| >= 8 { points := points + 1; }
    if |password| >= 12 { points := points + 1; }
    if HasSome(password, IsLowerLetter) { points := points + 1; }
    if HasSome(password, IsUpperLetter) { points := points + 1; }
    if HasSome(password, IsDigit) { points := points + 1; }
    if HasSome(password, IsOther) { points := points + 1; }
    assert points == RawScore(password);
    var scaled := (points as real) / 7.0 * 100.0;
    score := if scaled < 100.0 then scaled else 100.0;
    if score < 30.0 {
      name, colour := "Weak", "bg-destructive";
    } else if score < 50.0 {
      name, colour := "Fair", "bg-warning";
    } else if score < 75.0 {
      name, colour := "Good", "bg-primary";
    } else {
      name, colour := "Strong", "bg-success";
    }
  }

  /** The meter renders only for a non-empty password. */
  predicate Rendered(password: string)
  {
    password != ""
  }

  /** Every character is in one of the four classes, so a non-empty password scores a point and gets a label. */
  lemma NonEmptyScores(password: string)
    requires Rendered(password)
    ensures RawScore(password) >= 1
    ensures LabelOf(BandOf(Normalised(RawScore(password)))) != ""
  {
    var c := password[0];
    assert IsLowerLetter(c) || IsUpperLetter(c) || IsDigit(c) || IsOther(c);
    if IsLowerLetter(c) { assert HasSome(password, IsLowerLetter); }
    else if IsUpperLetter(c) { assert HasSome(password, IsUpperLetter); }
    else if IsDigit(c) { assert HasSome(password, IsDigit); }
    else { assert HasSome(password, IsOther); }
  }

  /** A character the password holds stays held after more characters are typed. */
  lemma HasSomeAppend(s: string, t: string, inClass: char -> bool)
    ensures HasSome(s, inClass) ==> HasSome(s + t, inClass)
  {
    if HasSome(s, inClass) {
      var i :| 0 <= i < |s| && inClass(s[i]);
      assert (s + t)[i] == s[i];
    }
  }

  /** Appending characters never lowers the score. */
  lemma AppendNeverLowers(s: string, t: string)
    ensures RawScore(s) <= RawScore(s + t)
    ensures Normalised(RawScore(s)) <= Normalised(RawScore(s + t))
  {
    HasSomeAppend(s, t, IsLowerLetter);
    HasSomeAppend(s, t, IsUpperLetter);
    HasSomeAppend(s, t, IsDigit);
    HasSomeAppend(s, t, IsOther);
  }

  /** The bands counted in passed checks: Weak up to 2, Fair at 3, Good at 4 or 5, Strong at 6 or 7. */
  lemma BandsInPoints(raw: nat)
    requires raw <= 7
    ensures BandOf(Normalised(raw)) == Weak <==> raw <= 2
    ensures BandOf(Normalised(raw)) == Fair <==> raw == 3
    ensures BandOf(Normalised(raw)) == Good <==> 4 <= raw <= 5
    ensures BandOf(Normalised(raw)) == Strong <==> raw >= 6
  {
    var x := raw as real;
    assert Normalised(raw) == x * 100.0 / 7.0;
  }
}
