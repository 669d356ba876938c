/**
 The password-strength meter of the registration screen: a classification by
 length, and the colour, bar value and caption derived from it.
 */
module Strength {
  import Credentials

  /** `Unrated` is the source's "none": fewer than eight characters. */
  datatype Strength = Unrated | Weak | Medium | Strong

  /** The order the meter fills in: none < weak < medium < strong. */
  function Rank(s: Strength): nat {
    match s
    case Unrated => 0
    case Weak => 1
    case Medium => 2
    case Strong => 3
  }

  /** `getPasswordStrength`: 8 to 10 characters is weak, 11 to 15 medium, more is strong. */
  function Classify(password: string): (s: Strength)
    ensures s == Unrated <==> |password| < Credentials.MinPasswordLength
    ensures s == Weak <==> Credentials.MinPasswordLength <= |password| <= 10
    ensures s == Medium <==> 10 < |password| <= 15
    ensures s == Strong <==> |password| > 15
  {
    if Credentials.MinPasswordLength <= |password| <= 10 then Weak
    else if 10 < |password| <= 15 then Medium
    else if |password| > 15 then Strong
    else Unrated
  }

  /** `getStrengthColor`: gray exactly when nothing is rated. */
  function Color(s: Strength): (c: string)
    ensures c == "gray" <==> s == Unrated
  {
    match s
    case Weak => "red"
    case Medium => "orange"
    case Strong => "green"
    case Unrated => "gray"
  }

  /** The value of the progress bar: a percentage, empty when unrated and full when strong. */
  function Progress(s: Strength): (p: nat)
    ensures p <= 100
    ensures p == 0 <==> s == Unrated
    ensures p == 100 <==> s == Strong
  {
    match s
    case Weak => 33
    case Medium => 66
    case Strong => 100
    case Unrated => 0
  }

  /** The caption under the password field; empty exactly when the meter shows gray. */
  function Caption(s: Strength): (t: string)
    ensures t == "" <==> Color(s) == "gray"
    ensures t != "" ==> Progress(s) > 0
  {
    match s
    case Weak => "Weak Password"
    case Medium => "Medium Password"
    case Strong => "Strong Password"
    case Unrated => ""
  }

  /** Different ratings are shown in different colours. */
  lemma ColorsDistinct(a: Strength, b: Strength)
    requires a != b
    ensures Color(a) != Color(b)
  {
  }

  /** A longer password never rates lower. */
  lemma ClassifyMonotone(p: string, q: string)
    requires |p| <= |q|
    ensures Rank(Classify(p)) <= Rank(Classify(q))
  {
  }

  /** The bar grows strictly with the rating. */
  lemma ProgressStrictlyMonotone(a: Strength, b: Strength)
    requires Rank(a) < Rank(b)
    ensures Progress(a) < Progress(b)
  {
  }

  /** A password the form accepts always shows some strength. */
  lemma ValidPasswordIsRated(p: string)
    requires Credentials.IsValidPassword(p)
    ensures Classify(p) != Unrated && Progress(Classify(p)) > 0
  {
  }
}
