/** The phone-number pattern of the brewery record,

      ^[+]?[0-9]{1,3}?[-.\s]?[(]?[0-9]{1,4}[)]?[-.\s]?[0-9]{1,4}[-.\s]?[0-9]{1,9}$|^$

    as a sequence of pieces, each a character class repeated between a
    minimum and a maximum number of times. `Accepts` is a backtracking
    recogniser in the manner of java.util.regex: a greedy piece tries its
    longest run first, a reluctant one (`{1,3}?`) its shortest. `Matches` is
    the declarative reading (some split of the input fits the pieces), and
    the two are proved to agree, so reluctance changes which match is found
    but never whether one is. */
module PhonePattern {

  /** The character classes the pattern uses. */
  datatype Class = PlusSign | Digit | Separator | OpenParen | CloseParen

  /** `\s` of java.util.regex without the UNICODE_CHARACTER_CLASS flag. */
  predicate JavaSpace(c: char) {
    c == ' ' || c == '\t' || c == '\n' || c == '\U{0B}' || c == '\U{0C}' || c == '\r'
  }

  predicate InClass(c: char, k: Class) {
    match k
    case PlusSign => c == '+'
    case Digit => '0' <= c <= '9'
    case Separator => c == '-' || c == '.' || JavaSpace(c)
    case OpenParen => c == '('
    case CloseParen => c == ')'
  }

  /** A class repeated `min` to `max` times; `reluctant` for the `?` suffix. */
  datatype Piece = Piece(cls: Class, min: nat, max: nat, reluctant: bool)

  /** The first alternative of the pattern; the second, `^$`, is the empty string. */
  const Phone: seq<Piece> := [
    Piece(PlusSign, 0, 1, false),   // [+]?
    Piece(Digit, 1, 3, true),       // [0-9]{1,3}?
    Piece(Separator, 0, 1, false),  // [-.\s]?
    Piece(OpenParen, 0, 1, false),  // [(]?
    Piece(Digit, 1, 4, false),      // [0-9]{1,4}
    Piece(CloseParen, 0, 1, false), // [)]?
    Piece(Separator, 0, 1, false),  // [-.\s]?
    Piece(Digit, 1, 4, false),      // [0-9]{1,4}
    Piece(Separator, 0, 1, false),  // [-.\s]?
    Piece(Digit, 1, 9, false)       // [0-9]{1,9}
  ]

  predicate AllIn(s: string, k: Class) {
    forall i :: 0 <= i < |s| ==> InClass(s[i], k)
  }

  // ---------------------------------------------------------------------
  // Declarative reading

  /** Some split of `s` gives each piece a run of its class within its bounds. */
  ghost predicate Matches(p: seq<Piece>, s: string)
    decreases |p|
  {
    if p == [] then s == []
    else exists n :: p[0].min <= n <= p[0].max && n <= |s| && AllIn(s[..n], p[0].cls)
                     && Matches(p[1..], s[n..])
  }

  // ---------------------------------------------------------------------
  // Backtracking recogniser

  /** The longest prefix of `s` in class `k`, cut at `max`: how far a piece can reach. */
  function Run(s: string, k: Class, max: nat): (n: nat)
    ensures n <= |s| && n <= max
    ensures AllIn(s[..n], k)
    ensures n < |s| && n < max ==> !InClass(s[n], k)
  {
    if s == [] || max == 0 || !InClass(s[0], k) then 0
    else
      var rest := Run(s[1..], k, max - 1);
      assert s[..rest + 1] == [s[0]] + s[1..][..rest];
      rest + 1
  }

  /** Does the pattern `p` match the whole of `s`? */
  function Accepts(p: seq<Piece>, s: string): bool
    decreases |p|, 1
  {
    if p == [] then s == []
    else
      var reach := Run(s, p[0].cls, p[0].max);
      if reach < p[0].min then false
      else if p[0].reluctant then TryUpward(p, s, p[0].min, reach)
      else TryDownward(p, s, reach, p[0].min)
  }

  /** Reluctant piece: give it `n` characters, then `n + 1`, ... up to `hi`. */
  function TryUpward(p: seq<Piece>, s: string, n: nat, hi: nat): bool
    requires p != [] && n <= hi <= |s|
    decreases |p|, 0, hi - n
  {
    Accepts(p[1..], s[n..]) || (n < hi && TryUpward(p, s, n + 1, hi))
  }

  /** Greedy piece: give it `n` characters, then `n - 1`, ... down to `lo`. */
  function TryDownward(p: seq<Piece>, s: string, n: nat, lo: nat): bool
    requires p != [] && lo <= n <= |s|
    decreases |p|, 0, n - lo
  {
    Accepts(p[1..], s[n..]) || (n > lo && TryDownward(p, s, n - 1, lo))
  }

  // ---------------------------------------------------------------------
  // The recogniser decides exactly the declarative language

  /** Within its bounds, a piece may take `n` characters exactly when `n` is within its reach. */
  lemma {:induction false} ReachBounds(s: string, k: Class, max: nat, n: nat)
    requires n <= |s| && n <= max
    ensures AllIn(s[..n], k) <==> n <= Run(s, k, max)
  {
    var reach := Run(s, k, max);
    if n <= reach {
      assert forall i :: 0 <= i < n ==> s[..n][i] == s[..reach][i];
    } else {
      assert s[..n][reach] == s[reach];
    }
  }

  /** Some split point in the range [lo, hi] lets the rest of the pattern accept. */
  ghost predicate SplitIn(p: seq<Piece>, s: string, lo: nat, hi: nat)
    requires p != [] && hi <= |s|
  {
    exists n :: lo <= n <= hi && Accepts(p[1..], s[n..])
  }

  lemma {:induction false} UpwardSound(p: seq<Piece>, s: string, n: nat, hi: nat)
    requires p != [] && n <= hi <= |s|
    ensures TryUpward(p, s, n, hi) <==> SplitIn(p, s, n, hi)
    decreases hi - n
  {
    if Accepts(p[1..], s[n..]) {
      assert SplitIn(p, s, n, hi);
    } else if n < hi {
      UpwardSound(p, s, n + 1, hi);
      if SplitIn(p, s, n, hi) {
        var m :| n <= m <= hi && Accepts(p[1..], s[m..]);
        assert SplitIn(p, s, n + 1, hi);
      }
    }
  }

  lemma {:induction false} DownwardSound(p: seq<Piece>, s: string, n: nat, lo: nat)
    requires p != [] && lo <= n <= |s|
    ensures TryDownward(p, s, n, lo) <==> SplitIn(p, s, lo, n)
    decreases n - lo
  {
    if Accepts(p[1..], s[n..]) {
      assert SplitIn(p, s, lo, n);
    } else if n > lo {
      DownwardSound(p, s, n - 1, lo);
      if SplitIn(p, s, lo, n) {
        var m :| lo <= m <= n && Accepts(p[1..], s[m..]);
        assert SplitIn(p, s, lo, n - 1);
      }
    }
  }

  /** Backtracking in either direction finds a match exactly when one exists. */
  lemma {:induction false} AcceptsMatches(p: seq<Piece>, s: string)
    ensures Accepts(p, s) == Matches(p, s)
    decreases |p|
  {
    if p != [] {
      var pc := p[0];
      var reach := Run(s, pc.cls, pc.max);
      if Matches(p, s) {
        var n :| pc.min <= n <= pc.max && n <= |s| && AllIn(s[..n], pc.cls) && Matches(p[1..], s[n..]);
        ReachBounds(s, pc.cls, pc.max, n);
        AcceptsMatches(p[1..], s[n..]);
        assert SplitIn(p, s, pc.min, reach);
      }
      if reach >= pc.min {
        if pc.reluctant {
          UpwardSound(p, s, pc.min, reach);
        } else {
          DownwardSound(p, s, reach, pc.min);
        }
        if SplitIn(p, s, pc.min, reach) {
          var n :| pc.min <= n <= reach && Accepts(p[1..], s[n..]);
          ReachBounds(s, pc.cls, pc.max, n);
          AcceptsMatches(p[1..], s[n..]);
          assert AllIn(s[..n], pc.cls);
        }
      }
    }
  }

  /** Making every piece greedy accepts the same strings: the reluctant
      `{1,3}?` of the pattern affects only which match is preferred. */
  function Greedy(p: seq<Piece>): (g: seq<Piece>)
    ensures |g| == |p|
    ensures forall i :: 0 <= i < |p| ==> g[i] == p[i].(reluctant := false)
  {
    if p == [] then [] else [p[0].(reluctant := false)] + Greedy(p[1..])
  }

  lemma {:induction false} MatchesIgnoresReluctance(p: seq<Piece>, s: string)
    ensures Matches(Greedy(p), s) == Matches(p, s)
    decreases |p|
  {
    if p != [] {
      assert Greedy(p)[1..] == Greedy(p[1..]);
      forall t | true ensures Matches(Greedy(p[1..]), t) == Matches(p[1..], t) {
        MatchesIgnoresReluctance(p[1..], t);
      }
    }
  }

  lemma ReluctanceIrrelevant(s: string)
    ensures Accepts(Greedy(Phone), s) == Accepts(Phone, s)
  {
    AcceptsMatches(Greedy(Phone), s);
    AcceptsMatches(Phone, s);
    MatchesIgnoresReluctance(Phone, s);
  }

  // ---------------------------------------------------------------------
  // What an accepted phone number looks like

  function MinLength(p: seq<Piece>): nat {
    if p == [] then 0 else p[0].min + MinLength(p[1..])
  }

  function MaxLength(p: seq<Piece>): nat {
    if p == [] then 0 else p[0].max + MaxLength(p[1..])
  }

  lemma {:induction false} MatchLengthBounds(p: seq<Piece>, s: string)
    requires Matches(p, s)
    ensures MinLength(p) <= |s| <= MaxLength(p)
    decreases |p|
  {
    if p != [] {
      var n :| p[0].min <= n <= p[0].max && n <= |s| && AllIn(s[..n], p[0].cls) && Matches(p[1..], s[n..]);
      MatchLengthBounds(p[1..], s[n..]);
    }
  }

  lemma PhoneLengths()
    ensures MinLength(Phone) == 4 && MaxLength(Phone) == 26
  {
  }

  /** A character some class of the pattern admits. */
  predicate PhoneChar(c: char) {
    InClass(c, PlusSign) || InClass(c, Digit) || InClass(c, Separator)
    || InClass(c, OpenParen) || InClass(c, CloseParen)
  }

  lemma {:induction false} MatchAlphabet(p: seq<Piece>, s: string)
    requires Matches(p, s)
    ensures forall i :: 0 <= i < |s| ==> PhoneChar(s[i])
    decreases |p|
  {
    if p != [] {
      var n :| p[0].min <= n <= p[0].max && n <= |s| && AllIn(s[..n], p[0].cls) && Matches(p[1..], s[n..]);
      MatchAlphabet(p[1..], s[n..]);
      forall i | 0 <= i < |s| ensures PhoneChar(s[i]) {
        if i < n {
          assert InClass(s[..n][i], p[0].cls);
        } else {
          assert s[i] == s[n..][i - n];
        }
      }
    }
  }

  /** A non-empty accepted phone number has 4 to 26 characters, all of them
      digits, `+`, `-`, `.`, parentheses or Java whitespace. */
  lemma PhoneShape(s: string)
    requires Accepts(Phone, s)
    ensures 4 <= |s| <= 26
    ensures forall i :: 0 <= i < |s| ==> PhoneChar(s[i])
  {
    PhoneLengths();
    AcceptsMatches(Phone, s);
    MatchLengthBounds(Phone, s);
    MatchAlphabet(Phone, s);
  }

  /** When the first piece is optional and the second is mandatory, a
      match begins with the second class, or with one character of the
      first class followed by the second. */
  lemma {:induction false} LeadingRun(p: seq<Piece>, s: string)
    requires |p| >= 2 && p[0].max <= 1 && p[1].min >= 1 && Matches(p, s)
    ensures |s| > 0
    ensures InClass(s[0], p[1].cls) || (|s| > 1 && InClass(s[0], p[0].cls) && InClass(s[1], p[1].cls))
  {
    var n :| p[0].min <= n <= p[0].max && n <= |s| && AllIn(s[..n], p[0].cls) && Matches(p[1..], s[n..]);
    var rest := s[n..];
    var m :| p[1].min <= m <= p[1].max && m <= |rest| && AllIn(rest[..m], p[1].cls);
    assert rest[..m][0] == s[n];
    if n == 1 {
      assert s[..n][0] == s[0];
    }
  }

  /** `[0-9]{1,3}?` is a reluctant quantifier, not an optional group: an
      accepted number begins with a digit, or with `+` and a digit, so an
      opening parenthesis can only follow at least one digit. */
  lemma PhoneLeadingDigit(s: string)
    requires Accepts(Phone, s)
    ensures |s| > 0 && (InClass(s[0], Digit) || (|s| > 1 && s[0] == '+' && InClass(s[1], Digit)))
  {
    AcceptsMatches(Phone, s);
    LeadingRun(Phone, s);
  }

  /** One step of a match: a run `a` for the first piece, then a match `b` of the rest. */
  lemma MatchesStep(p: seq<Piece>, a: string, b: string)
    requires p != [] && p[0].min <= |a| <= p[0].max && AllIn(a, p[0].cls)
    requires Matches(p[1..], b)
    ensures Matches(p, a + b)
  {
    assert (a + b)[..|a|] == a && (a + b)[|a|..] == b;
  }

  /** An optional piece may match nothing. */
  lemma MatchesSkip(p: seq<Piece>, s: string)
    requires p != [] && p[0].min == 0 && Matches(p[1..], s)
    ensures Matches(p, s)
  {
    assert s[..0] == [] && s[0..] == s;
  }

  /** The subscriber part of the example below: ` 123 456` against the last four pieces. */
  lemma SubscriberMatches()
    ensures Matches(Phone[6..], " " + ("123" + (" " + "456")))
  {
    assert Phone[9..][1..] == Phone[10..] && Phone[8..][1..] == Phone[9..];
    assert Phone[7..][1..] == Phone[8..] && Phone[6..][1..] == Phone[7..];
    MatchesStep(Phone[9..], "456", "");
    assert "456" + "" == "456";
    MatchesStep(Phone[8..], " ", "456");
    MatchesStep(Phone[7..], "123", " " + "456");
    MatchesStep(Phone[6..], " ", "123" + (" " + "456"));
  }

  /** The rest after the country code: ` 600 123 456` against pieces three onwards. */
  lemma NationalMatches()
    ensures Matches(Phone[2..], " " + ("600" + (" " + ("123" + (" " + "456")))))
  {
    var subscriber := " " + ("123" + (" " + "456"));
    assert Phone[5..][1..] == Phone[6..] && Phone[4..][1..] == Phone[5..];
    assert Phone[3..][1..] == Phone[4..] && Phone[2..][1..] == Phone[3..];
    SubscriberMatches();
    MatchesSkip(Phone[5..], subscriber);              // no closing parenthesis
    MatchesStep(Phone[4..], "600", subscriber);
    MatchesSkip(Phone[3..], "600" + subscriber);      // no opening parenthesis
    MatchesStep(Phone[2..], " ", "600" + subscriber);
  }

  /** The whole number, written as the runs of the match below. */
  lemma InternationalSplit(s: string)
    requires s == "+34 600 123 456"
    ensures s == "+" + ("34" + (" " + ("600" + (" " + ("123" + (" " + "456"))))))
  {
  }

  /** A Spanish mobile number with country code and spaces is accepted. */
  lemma SpacedInternationalAccepted(s: string)
    requires s == "+34 600 123 456"
    ensures Accepts(Phone, s)
  {
    InternationalSplit(s);
    var national := " " + ("600" + (" " + ("123" + (" " + "456"))));
    assert Phone[1..][1..] == Phone[2..];
    NationalMatches();
    MatchesStep(Phone[1..], "34", national);
    MatchesStep(Phone, "+", "34" + national);
    AcceptsMatches(Phone, s);
  }
}
