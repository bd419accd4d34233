/** Quoting by doubling, as CSV fields and SQL identifiers share it. */
module Quoting {
  import opened Common

  /** Every quote written twice. */
  function Doubled(s: string, quote: char): string {
    if s == "" then "" else (if s[0] == quote then [quote, quote] else [s[0]]) + Doubled(s[1..], quote)
  }

  /** What follows an opening quote: the text up to the closing quote, and what follows that. */
  function ReadQuoted(s: string, quote: char): (r: Option<(string, string)>)
    ensures r.Some? ==> |r.value.0| + |r.value.1| < |s|
    ensures r.Some? && r.value.1 == "" ==> s[|s| - 1] == quote
  {
    if s == "" then None
    else if s[0] != quote then
      var r := ReadQuoted(s[1..], quote);
      if r.Some? then Some(([s[0]] + r.value.0, r.value.1)) else None
    else if |s| > 1 && s[1] == quote then
      var r := ReadQuoted(s[2..], quote);
      if r.Some? then Some(([quote] + r.value.0, r.value.1)) else None
    else Some(("", s[1..]))
  }

  lemma {:induction false} QuotedReads(text: string, rest: string, quote: char)
    requires rest == "" || rest[0] != quote
    ensures ReadQuoted(Doubled(text, quote) + ([quote] + rest), quote) == Some((text, rest))
  {
    hide Doubled;
    NothingDoubled(quote);
    var s := Doubled(text, quote) + ([quote] + rest);
    if text == "" {
      assert s == [quote] + rest;
    } else {
      var tail := Doubled(text[1..], quote) + ([quote] + rest);
      QuotedReads(text[1..], rest, quote);
      assert text == [text[0]] + text[1..];
      DoubledStep(text, quote, [quote] + rest);
      if text[0] == quote {
        assert s == [quote, quote] + tail && s[2..] == tail;
      } else {
        assert s == [text[0]] + tail && s[1..] == tail;
      }
    }
  }

  lemma NothingDoubled(quote: char)
    ensures Doubled("", quote) == ""
  {
  }

  lemma DoubledStep(text: string, quote: char, rest: string)
    requires text != ""
    ensures Doubled(text, quote) + rest
            == (if text[0] == quote then [quote, quote] else [text[0]]) + (Doubled(text[1..], quote) + rest)
  {
  }

  lemma {:induction false} Undoubled(s: string, quote: char)
    requires quote !in s
    ensures Doubled(s, quote) == s
  {
    if s != "" {
      Undoubled(s[1..], quote);
    }
  }

  /** The converse: what is read is what was doubled. */
  lemma {:induction false} ReadQuotedShape(s: string, quote: char)
    requires ReadQuoted(s, quote).Some?
    ensures var (text, rest) := ReadQuoted(s, quote).value;
            s == Doubled(text, quote) + ([quote] + rest) && (rest == "" || rest[0] != quote)
  {
    hide Doubled;
    NothingDoubled(quote);
    var (text, rest) := ReadQuoted(s, quote).value;
    if s[0] != quote {
      ReadQuotedShape(s[1..], quote);
      DoubledStep(text, quote, [quote] + rest);
      assert text[1..] == ReadQuoted(s[1..], quote).value.0;
    } else if |s| > 1 && s[1] == quote {
      ReadQuotedShape(s[2..], quote);
      DoubledStep(text, quote, [quote] + rest);
      assert text[1..] == ReadQuoted(s[2..], quote).value.0;
      assert s == [quote, quote] + s[2..];
    } else {
      assert s == [quote] + rest && "" + ([quote] + rest) == [quote] + rest;
    }
  }

  /** How many quotes a text starts with. */
  function Leading(s: string, quote: char): nat {
    if s == "" || s[0] != quote then 0 else 1 + Leading(s[1..], quote)
  }

  lemma {:induction false} LeadingDoubled(s: string, quote: char, rest: string)
    ensures Leading(Doubled(s, quote) + rest, quote) >= 2 * Leading(s, quote)
  {
    if s != "" && s[0] == quote {
      LeadingDoubled(s[1..], quote, rest);
      DoubledStep(s, quote, rest);
      var tail := Doubled(s[1..], quote) + rest;
      assert ([quote, quote] + tail)[1..] == [quote] + tail && ([quote] + tail)[1..] == tail;
    }
  }

  lemma {:induction false} LeadingKept(s: string, quote: char, rest: string)
    requires rest == "" || rest[0] != quote
    ensures Leading(s + rest, quote) == Leading(s, quote)
  {
    if s == "" {
      assert s + rest == rest;
    } else {
      assert (s + rest)[1..] == s[1..] + rest;
      LeadingKept(s[1..], quote, rest);
    }
  }

  /** A text that starts with a quote is not read back from itself. */
  lemma NotReadFromItself(text: string, quote: char, rest: string)
    requires text != "" && text[0] == quote && (rest == "" || rest[0] != quote)
    ensures var r := ReadQuoted(text[1..] + rest, quote); r.None? || r.value.0 != text
  {
    hide ReadQuoted, Doubled;
    var s := text[1..] + rest;
    if ReadQuoted(s, quote).Some? && ReadQuoted(s, quote).value.0 == text {
      ReadQuotedShape(s, quote);
      LeadingDoubled(text, quote, [quote] + ReadQuoted(s, quote).value.1);
      LeadingKept(text[1..], quote, rest);
    }
  }

  // ---------------------------------------------------------------- counting quotes

  function Count(s: string, c: char): nat {
    if s == "" then 0 else (if s[0] == c then 1 else 0) + Count(s[1..], c)
  }

  lemma {:induction false} CountAppend(s: string, t: string, c: char)
    ensures Count(s + t, c) == Count(s, c) + Count(t, c)
  {
    if s == "" {
      assert s + t == t;
    } else {
      assert (s + t)[1..] == s[1..] + t;
      CountAppend(s[1..], t, c);
    }
  }

  lemma {:induction false} CountZero(s: string, c: char)
    ensures Count(s, c) == 0 <==> c !in s
  {
    if s != "" {
      CountZero(s[1..], c);
      assert s == [s[0]] + s[1..];
    }
  }

  /** A reader uses up two quotes for each one it delivers, and one to end. */
  lemma {:induction false} ReadQuotedCounts(s: string, quote: char)
    requires ReadQuoted(s, quote).Some?
    ensures var (text, rest) := ReadQuoted(s, quote).value;
            Count(s, quote) == 2 * Count(text, quote) + 1 + Count(rest, quote)
  {
    if s[0] != quote {
      ReadQuotedCounts(s[1..], quote);
      CountPush(s[0], ReadQuoted(s[1..], quote).value.0, quote);
    } else if |s| > 1 && s[1] == quote {
      ReadQuotedCounts(s[2..], quote);
      CountPush(quote, ReadQuoted(s[2..], quote).value.0, quote);
      assert s[1..][1..] == s[2..];
    }
  }

  lemma CountPush(a: char, s: string, c: char)
    ensures Count([a] + s, c) == (if a == c then 1 else 0) + Count(s, c)
  {
    assert ([a] + s)[1..] == s;
  }
}
