/**
 * The market symbol `base_quote` and the two tokens the strategy draws
 * capital from: the bid token is the part after the separator (spent when
 * buying), the ask token the part before it (spent when selling).
 */
module Symbols {

  import opened Wrappers

  const Separator: char := '_'

  /** `s.split("_")`: the maximal runs between separators, in order. */
  function Split(s: string): (parts: seq<string>)
    ensures |parts| >= 1
    ensures forall i :: 0 <= i < |parts| ==> Separator !in parts[i]
  {
    if s == [] then [[]]
    else
      var rest := Split(s[1..]);
      if s[0] == Separator then [[]] + rest
      else [[s[0]] + rest[0]] + rest[1..]
  }

  /** `parts.join("_")`. */
  function Join(parts: seq<string>): (s: string)
    requires |parts| >= 1
  {
    if |parts| == 1 then parts[0] else parts[0] + [Separator] + Join(parts[1..])
  }

  /** Splitting loses nothing: joining the parts gives back the symbol. */
  lemma {:induction false} JoinSplit(s: string)
    ensures Join(Split(s)) == s
  {
    if s != [] {
      var rest := Split(s[1..]);
      JoinSplit(s[1..]);
      if s[0] == Separator {
        assert Split(s) == [[]] + rest;
        assert ([[]] + rest)[1..] == rest;
      } else {
        var parts := [[s[0]] + rest[0]] + rest[1..];
        assert Split(s) == parts;
        if |rest| == 1 {
          assert Join(parts) == [s[0]] + rest[0];
        } else {
          assert parts[1..] == rest[1..];
          assert Join(rest) == rest[0] + [Separator] + Join(rest[1..]);
        }
      }
    }
  }

  /** A run without separators splits into itself alone. */
  lemma {:induction false} SplitPlain(s: string)
    requires Separator !in s
    ensures Split(s) == [s]
  {
    if s != [] {
      SplitPlain(s[1..]);
      assert [s[0]] + s[1..] == s;
    }
  }

  /** A prefix without separators becomes the head of the first part. */
  lemma {:induction false} SplitPrefix(a: string, b: string)
    requires Separator !in a
    ensures Split(a + b) == [a + Split(b)[0]] + Split(b)[1..]
  {
    if a != [] {
      assert (a + b)[1..] == a[1..] + b;
      assert (a + b)[0] == a[0];
      SplitPrefix(a[1..], b);
      assert [a[0]] + (a[1..] + Split(b)[0]) == a + Split(b)[0];
    } else {
      var parts := Split(b);
      assert a + b == b && a + parts[0] == parts[0];
      assert [parts[0]] + parts[1..] == parts;
    }
  }

  /** `base_quote` with no separator in either token splits into exactly the two tokens. */
  lemma SplitPair(base: string, quote: string)
    requires Separator !in base && Separator !in quote
    ensures Split(base + [Separator] + quote) == [base, quote]
  {
    SplitPlain(quote);
    var tail := [Separator] + quote;
    assert tail[1..] == quote;
    assert Split(tail) == [[], quote];
    assert base + [Separator] + quote == base + tail;
    SplitPrefix(base, tail);
    assert base + [] == base;
  }

  /** `symbol.split("_")[1]`: undefined when the symbol has no separator. */
  function BidToken(symbol: string): (token: Option<string>)
    ensures token.None? <==> Separator !in symbol
    ensures token.Some? ==> Separator !in token.value
  {
    SplitHasSeveralPartsIffSeparator(symbol);
    var parts := Split(symbol);
    if |parts| > 1 then Some(parts[1]) else None
  }

  /** `symbol.split("_")[0]`: always defined. It is the longest prefix of the
      symbol without a separator. */
  function AskToken(symbol: string): (token: string)
    ensures token <= symbol && Separator !in token
    ensures |token| < |symbol| ==> symbol[|token|] == Separator
  {
    SplitHead(symbol);
    Split(symbol)[0]
  }

  /** A string splits into more than one part exactly when it holds a separator. */
  lemma {:induction false} SplitHasSeveralPartsIffSeparator(s: string)
    ensures |Split(s)| > 1 <==> Separator in s
  {
    if s != [] {
      SplitHasSeveralPartsIffSeparator(s[1..]);
      assert s == [s[0]] + s[1..];
    }
  }

  /** The first part is the run before the first separator. */
  lemma {:induction false} SplitHead(s: string)
    ensures Split(s)[0] <= s
    ensures |Split(s)[0]| < |s| ==> s[|Split(s)[0]|] == Separator
  {
    if s != [] && s[0] != Separator {
      SplitHead(s[1..]);
      var rest := Split(s[1..]);
      assert Split(s)[0] == [s[0]] + rest[0];
      assert s == [s[0]] + s[1..];
    }
  }

  /** For a symbol `base_quote` the bid token is the quote and the ask token the base. */
  lemma TokensOfPair(base: string, quote: string)
    requires Separator !in base && Separator !in quote
    ensures BidToken(base + [Separator] + quote) == Some(quote)
    ensures AskToken(base + [Separator] + quote) == base
  {
    SplitPair(base, quote);
  }

  /** A symbol without a separator has no bid token, and the whole symbol is the ask token. */
  lemma TokensOfPlainSymbol(symbol: string)
    requires Separator !in symbol
    ensures BidToken(symbol) == None && AskToken(symbol) == symbol
  {
    SplitPlain(symbol);
  }
}
