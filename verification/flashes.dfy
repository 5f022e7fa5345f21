/** The flash messages app.py shows, with their exact text and category.
    Messages about one feedback item interpolate its id in decimal, as the
    source's f-strings do. */
module Flashes {

  datatype Category = Error | Success

  datatype Message =
    | WrongCredentials
    | CannotDeleteOthers
    | FeedbackMissing(id: nat)
    | ChangesSaved
    | UpdateNotOwner(id: nat)
    | FeedbackDeleted(id: nat)
    | DeleteNotOwner(id: nat)

  /** The second argument of each `flash(...)` call. */
  function CategoryOf(m: Message): Category {
    match m
    case ChangesSaved => Success
    case FeedbackDeleted(_) => Success
    case _ => Error
  }

  predicate IsDigit(c: char) {
    '0' <= c <= '9'
  }

  predicate AllDigits(s: string) {
    forall i :: 0 <= i < |s| ==> IsDigit(s[i])
  }

  /** A non-empty run of decimal digits. */
  predicate IsNumeral(s: string) {
    |s| > 0 && AllDigits(s)
  }

  /** The number a run of decimal digits denotes, read the way the `<int:id>`
      route converter reads a path segment. */
  function ValueOf(s: string): nat
    requires AllDigits(s)
  {
    if |s| == 0 then 0 else 10 * ValueOf(s[..|s| - 1]) + (s[|s| - 1] as int - '0' as int)
  }

  /** `str(n)` for a non-negative int, as an f-string renders it: a numeral
      that reads back as `n`. */
  function Decimal(n: nat): (r: string)
    ensures IsNumeral(r)
    ensures ValueOf(r) == n
    ensures n < 10 <==> |r| == 1
    ensures |r| > 1 ==> r[0] != '0'
  {
    var last := [(n % 10 + '0' as int) as char];
    if n < 10 then
      last
    else
      var init := Decimal(n / 10);
      assert (init + last)[..|init|] == init;
      init + last
  }

  /** The messages that name one feedback item. */
  predicate AboutItem(m: Message) {
    m.FeedbackMissing? || m.UpdateNotOwner? || m.FeedbackDeleted? || m.DeleteNotOwner?
  }

  /** The text after the id in each message about a feedback item. */
  function Suffix(m: Message): (r: string)
    requires AboutItem(m)
    ensures |r| > 0 && r[0] == ' '
  {
    match m
    case FeedbackMissing(_) => " does not exist"
    case UpdateNotOwner(_) => NotOwner + " Please select a feedback item from the list below."
    case FeedbackDeleted(_) => " deleted."
    case DeleteNotOwner(_) => NotOwner + " Please select a feedback item below."
  }

  const ItemPrefix: string := "Feedback item "
  const NotOwner: string := " belongs to another user."

  /** The text of the messages that name no feedback item. */
  function FixedText(m: Message): string
    requires !AboutItem(m)
  {
    match m
    case WrongCredentials => "Wrong username or password."
    case CannotDeleteOthers => "Cannot delete other users."
    case _ => "changes saved!"
  }

  /** The first argument of each `flash(...)` call. */
  function Text(m: Message): string {
    if AboutItem(m) then ItemPrefix + Decimal(m.id) + Suffix(m) else FixedText(m)
  }

  /** Two messages with the same text are the same message: in particular a
      message about a feedback item names exactly the item it is about. */
  lemma TextDistinguishes(m1: Message, m2: Message)
    requires Text(m1) == Text(m2)
    ensures m1 == m2
  {
    if AboutItem(m1) && AboutItem(m2) {
      ItemTextDistinguishes(m1, m2);
    } else if AboutItem(m1) {
      ItemText(m1);
      PlainText(m2);
    } else if AboutItem(m2) {
      ItemText(m2);
      PlainText(m1);
    } else {
      PlainTextDistinguishes(m1, m2);
    }
  }

  lemma ItemTextDistinguishes(m1: Message, m2: Message)
    requires AboutItem(m1) && AboutItem(m2)
    requires Text(m1) == Text(m2)
    ensures m1 == m2
  {
    var d1, d2 := Decimal(m1.id), Decimal(m2.id);
    ItemText(m1);
    ItemText(m2);
    NumeralSplit(d1, Suffix(m1), d2, Suffix(m2));
    DecimalInjective(m1.id, m2.id);
    SuffixDistinguishes(m1, m2);
  }

  lemma PlainText(m: Message)
    requires !AboutItem(m)
    ensures Text(m)[0] != 'F'
  {
  }

  lemma PlainTextDistinguishes(m1: Message, m2: Message)
    requires !AboutItem(m1) && !AboutItem(m2)
    requires Text(m1) == Text(m2)
    ensures m1 == m2
  {
    assert |Text(m1)| == |Text(m2)|;
  }

  /** Stripping the common prefix off a message about a feedback item. */
  lemma ItemText(m: Message)
    requires AboutItem(m)
    ensures Text(m) == ItemPrefix + (Decimal(m.id) + Suffix(m))
    ensures Text(m)[0] == 'F'
    ensures Text(m)[|ItemPrefix|..] == Decimal(m.id) + Suffix(m)
  {
    var p, d, x := ItemPrefix, Decimal(m.id), Suffix(m);
    assert p[0] == 'F';
    Concat3(p, d, x);
  }

  lemma Concat3<T>(p: seq<T>, d: seq<T>, x: seq<T>)
    requires |p| > 0
    ensures p + d + x == p + (d + x)
    ensures (p + d + x)[0] == p[0]
    ensures (p + d + x)[|p|..] == d + x
  {
  }

  lemma SuffixDistinguishes(m1: Message, m2: Message)
    requires AboutItem(m1) && AboutItem(m2) && m1.id == m2.id
    requires Suffix(m1) == Suffix(m2)
    ensures m1 == m2
  {
  }

  /** A numeral followed by text starting with a space splits one way only. */
  lemma NumeralSplit(d1: string, s1: string, d2: string, s2: string)
    requires IsNumeral(d1) && IsNumeral(d2)
    requires |s1| > 0 && s1[0] == ' ' && |s2| > 0 && s2[0] == ' '
    requires d1 + s1 == d2 + s2
    ensures d1 == d2 && s1 == s2
  {
    assert d1 == (d1 + s1)[..|d1|] == (d2 + s2)[..|d2|] == d2;
    assert s1 == (d1 + s1)[|d1|..] == (d2 + s2)[|d2|..] == s2;
  }

  lemma DecimalInjective(a: nat, b: nat)
    requires Decimal(a) == Decimal(b)
    ensures a == b
  {
  }

  /** A numeral with no leading zero is the rendering of the number it
      denotes: `Decimal` is the only such spelling of each id. */
  lemma {:induction false} DecimalCanonical(s: string)
    requires IsNumeral(s) && (|s| > 1 ==> s[0] != '0')
    ensures Decimal(ValueOf(s)) == s
    decreases |s|
  {
    var init, c := s[..|s| - 1], s[|s| - 1];
    assert AllDigits(init);
    var d := c as int - '0' as int;
    if |s| > 1 {
      assert init[0] == s[0];
      DecimalCanonical(init);
      LeadingDigitPositive(init);
      var n := ValueOf(s);
      assert n == 10 * ValueOf(init) + d;
      assert n / 10 == ValueOf(init) && n % 10 == d;
      assert Decimal(n) == Decimal(n / 10) + [(n % 10 + '0' as int) as char];
      assert s == init + [c];
    } else {
      assert s == [c];
    }
  }

  /** A numeral of two or more digits without a leading zero denotes a
      number of at least one. */
  lemma {:induction false} LeadingDigitPositive(s: string)
    requires IsNumeral(s) && (|s| > 1 ==> s[0] != '0')
    ensures ValueOf(s) >= 1 || s == "0"
    decreases |s|
  {
    var init := s[..|s| - 1];
    assert AllDigits(init);
    if |s| > 1 {
      assert init[0] == s[0];
      LeadingDigitPositive(init);
    }
  }
}
