/** The count lines the frontend renders, "<n> <word> <tail>", where the word
    takes its plural form for every count but one. */
module Labels {
  import opened Text

  function CountLabel(n: nat, singular: string, plural: string, tail: string): string {
    NatToString(n) + " " + (if n == 1 then singular else plural) + " " + tail
  }

  /** The leading digits of a string of digits followed by a non-digit are those digits. */
  lemma {:induction false} LeadingDigitsOf(d: string, s: string)
    requires AllDigits(d) && s != [] && !IsDigit(s[0])
    ensures LeadingDigits(d + s) == d
    decreases |d|
  {
    if d != [] {
      assert (d + s)[1..] == d[1..] + s;
      LeadingDigitsOf(d[1..], s);
    }
  }

  /** The number a label starts with reads back as the count. */
  lemma CountLabelReadsBack(n: nat, singular: string, plural: string, tail: string)
    ensures LeadingDigits(CountLabel(n, singular, plural, tail)) == NatToString(n)
    ensures DigitsValue(NatToString(n)) == n
  {
    var rest := " " + (if n == 1 then singular else plural) + " " + tail;
    assert CountLabel(n, singular, plural, tail) == NatToString(n) + rest;
    LeadingDigitsOf(NatToString(n), rest);
    DigitsValueOfNatToString(n);
  }

  /** Different counts give different labels. */
  lemma CountLabelInjective(n: nat, m: nat, singular: string, plural: string, tail: string)
    requires CountLabel(n, singular, plural, tail) == CountLabel(m, singular, plural, tail)
    ensures n == m
  {
    CountLabelReadsBack(n, singular, plural, tail);
    CountLabelReadsBack(m, singular, plural, tail);
  }
}
