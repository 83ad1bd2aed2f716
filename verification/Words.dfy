/**
 * The Hebrew word rules (server/internal/game/words.go): how two spellings are
 * compared, when a hint gives the secret away, when it repeats another hint,
 * and when a guess is accepted.
 *
 * The Unicode tables are abstract: `Alphabet` carries the character predicates
 * of Go's `unicode` package, and `Lawful` states the few facts about them that
 * the theorems use.  The presentation-form and final-letter tables are spelled out.
 */
module Words {
  /**
   * Letter, digit, lower-case, space and format (Cf) classification of one character, and
   * the replacement table for presentation forms (`PresentationForm` in the source).
   */
  datatype Alphabet = Alphabet(
    isLetter: char -> bool,
    isDigit: char -> bool,
    toLower: char -> char,
    isSpace: char -> bool,
    isFormat: char -> bool,
    unfold: char -> string)
  {
    predicate IsWordChar(c: char) { isLetter(c) || isDigit(c) }
  }

  const PREFIX_LETTERS := "\U{05D5}\U{05D4}\U{05D1}\U{05DB}\U{05DC}\U{05DE}\U{05E9}"  // vav he bet kaf lamed mem shin
  const HE := '\U{05D4}'
  const BET := '\U{05D1}'
  const MAX_PREFIX_LETTERS := 3
  const MIN_STEM_LETTERS := 2
  const MIN_INNER_SECRET := 4
  const MIN_PREFIXED_PART := 3

  /** The replacement of one character by `presentationForms`; other characters stay. */
  function PresentationForm(c: char): string {
    match c
    case '\U{FB1D}' => "\U{05D9}" case '\U{FB1F}' => "\U{05F2}" case '\U{FB20}' => "\U{05E2}"
    case '\U{FB21}' => "\U{05D0}" case '\U{FB22}' => "\U{05D3}" case '\U{FB23}' => "\U{05D4}"
    case '\U{FB24}' => "\U{05DB}" case '\U{FB25}' => "\U{05DC}" case '\U{FB26}' => "\U{05DD}"
    case '\U{FB27}' => "\U{05E8}" case '\U{FB28}' => "\U{05EA}"
    case '\U{FB2A}' => "\U{05E9}" case '\U{FB2B}' => "\U{05E9}" case '\U{FB2C}' => "\U{05E9}"
    case '\U{FB2D}' => "\U{05E9}" case '\U{FB2E}' => "\U{05D0}" case '\U{FB2F}' => "\U{05D0}"
    case '\U{FB30}' => "\U{05D0}" case '\U{FB31}' => "\U{05D1}" case '\U{FB32}' => "\U{05D2}"
    case '\U{FB33}' => "\U{05D3}" case '\U{FB34}' => "\U{05D4}" case '\U{FB35}' => "\U{05D5}"
    case '\U{FB36}' => "\U{05D6}" case '\U{FB38}' => "\U{05D8}" case '\U{FB39}' => "\U{05D9}"
    case '\U{FB3A}' => "\U{05DA}" case '\U{FB3B}' => "\U{05DB}" case '\U{FB3C}' => "\U{05DC}"
    case '\U{FB3E}' => "\U{05DE}" case '\U{FB40}' => "\U{05E0}" case '\U{FB41}' => "\U{05E1}"
    case '\U{FB43}' => "\U{05E3}" case '\U{FB44}' => "\U{05E4}" case '\U{FB46}' => "\U{05E6}"
    case '\U{FB47}' => "\U{05E7}" case '\U{FB48}' => "\U{05E8}" case '\U{FB49}' => "\U{05E9}"
    case '\U{FB4A}' => "\U{05EA}" case '\U{FB4B}' => "\U{05D5}" case '\U{FB4C}' => "\U{05D1}"
    case '\U{FB4D}' => "\U{05DB}" case '\U{FB4E}' => "\U{05E4}" case '\U{FB4F}' => "\U{05D0}\U{05DC}"
    case _ => [c]
  }

  /** The replacement of one character by `finalLetters`. */
  function Regular(c: char): char {
    match c
    case '\U{05DA}' => '\U{05DB}'
    case '\U{05DD}' => '\U{05DE}'
    case '\U{05DF}' => '\U{05E0}'
    case '\U{05E3}' => '\U{05E4}'
    case '\U{05E5}' => '\U{05E6}'
    case _ => c
  }

  predicate IsHebrew(c: char) { '\U{05D0}' <= c <= '\U{05EA}' || c == '\U{05F2}' }

  /** What the theorems need of Unicode. */
  ghost predicate Lawful(ab: Alphabet) {
    && (forall c :: IsHebrew(c) ==> ab.isLetter(c) && ab.toLower(c) == c)
    && (forall c :: ab.IsWordChar(c) ==>
          ab.IsWordChar(ab.toLower(c)) && ab.toLower(ab.toLower(c)) == ab.toLower(c))
    && (forall c :: ab.unfold(c) == [c] || forall d <- ab.unfold(c) :: IsHebrew(d))
    && (forall c :: IsHebrew(c) ==> ab.unfold(c) == [c])
    && (forall c :: ab.IsWordChar(c) && ab.unfold(c) == [c] ==> ab.unfold(ab.toLower(c)) == [ab.toLower(c)])
  }

  /**
   * With the source's own replacement table the facts about `unfold` hold: what is left to ask of the
   * Unicode tables is that Hebrew letters are letters without case and that lower case is stable.
   */
  lemma SourceTableIsLawful(ab: Alphabet)
    requires forall c :: ab.unfold(c) == PresentationForm(c)
    requires forall c :: IsHebrew(c) ==> ab.isLetter(c) && ab.toLower(c) == c
    requires forall c :: ab.IsWordChar(c) ==>
      ab.IsWordChar(ab.toLower(c)) && ab.toLower(ab.toLower(c)) == ab.toLower(c)
    requires forall c :: ab.IsWordChar(c) && PresentationForm(c) == [c] ==>
      PresentationForm(ab.toLower(c)) == [ab.toLower(c)]
    ensures Lawful(ab)
  {
    forall c ensures ab.unfold(c) == [c] || forall d <- ab.unfold(c) :: IsHebrew(d) {
      FormsAreHebrew(c);
    }
    forall c ensures IsHebrew(c) ==> ab.unfold(c) == [c] {
      FormsAreHebrew(c);
    }
  }

  lemma FormsAreHebrew(c: char)
    ensures PresentationForm(c) == [c] || forall d <- PresentationForm(c) :: IsHebrew(d)
    ensures IsHebrew(c) ==> PresentationForm(c) == [c]
  {
  }

  predicate IsAsciiLetter(c: char) { 'A' <= c <= 'Z' || 'a' <= c <= 'z' }

  /** The alphabet of Hebrew and ASCII, with the source's replacement table. */
  const HEBREW_AND_ASCII := Alphabet(
    c => IsHebrew(c) || IsAsciiLetter(c),
    c => '0' <= c <= '9',
    c => if 'A' <= c <= 'Z' then (c as int + 32) as char else c,
    c => c == ' ',
    c => false,
    PresentationForm)

  lemma HebrewAndAsciiIsLawful()
    ensures Lawful(HEBREW_AND_ASCII)
  {
    forall c ensures IsAsciiLetter(c) || '0' <= c <= '9' ==> PresentationForm(c) == [c] {
    }
    SourceTableIsLawful(HEBREW_AND_ASCII);
  }

  // ----- normalizeWord -----

  /** What one already unfolded character contributes. */
  function Keep(ab: Alphabet, c: char): string {
    if ab.IsWordChar(c) then [Regular(ab.toLower(c))] else []
  }

  function KeepAll(ab: Alphabet, s: string): string {
    if s == [] then [] else Keep(ab, s[0]) + KeepAll(ab, s[1..])
  }

  /** The normal form of a word, character by character. */
  function Normalize(ab: Alphabet, s: string): string {
    if s == [] then [] else KeepAll(ab, ab.unfold(s[0])) + Normalize(ab, s[1..])
  }

  function UnfoldAll(ab: Alphabet, s: string): string {
    if s == [] then [] else ab.unfold(s[0]) + UnfoldAll(ab, s[1..])
  }

  function RegularAll(s: string): string {
    if s == [] then [] else [Regular(s[0])] + RegularAll(s[1..])
  }

  lemma {:induction false} RegularAllSnoc(s: string, c: char)
    ensures RegularAll(s + [c]) == RegularAll(s) + [Regular(c)]
  {
    if s == [] {
      assert s + [c] == [c];
    } else {
      assert (s + [c])[1..] == s[1..] + [c];
      RegularAllSnoc(s[1..], c);
    }
  }

  lemma {:induction false} KeepAllAppend(ab: Alphabet, a: string, b: string)
    ensures KeepAll(ab, a + b) == KeepAll(ab, a) + KeepAll(ab, b)
  {
    if a == [] {
      assert a + b == b;
    } else {
      assert (a + b)[1..] == a[1..] + b;
      KeepAllAppend(ab, a[1..], b);
    }
  }

  lemma {:induction false} NormalizeIsKeepUnfold(ab: Alphabet, s: string)
    ensures Normalize(ab, s) == KeepAll(ab, UnfoldAll(ab, s))
  {
    if s != [] {
      NormalizeIsKeepUnfold(ab, s[1..]);
      KeepAllAppend(ab, ab.unfold(s[0]), UnfoldAll(ab, s[1..]));
    }
  }

  /** `normalizeWord`: unfold, keep letters and digits in lower case, then regularise final letters. */
  method NormalizeWord(ab: Alphabet, s: string) returns (r: string)
    ensures r == Normalize(ab, s)
  {
    var unfolded := UnfoldAll(ab, s);
    var b: string := [];
    var i := 0;
    while i < |unfolded|
      invariant 0 <= i <= |unfolded|
      invariant RegularAll(b) == KeepAll(ab, unfolded[..i])
    {
      ghost var done := unfolded[..i];
      var c := unfolded[i];
      assert unfolded[..i + 1] == done + [c];
      KeepAllAppend(ab, done, [c]);
      if ab.isLetter(c) || ab.isDigit(c) {
        RegularAllSnoc(b, ab.toLower(c));
        b := b + [ab.toLower(c)];
      }
      i := i + 1;
    }
    assert unfolded[..|unfolded|] == unfolded;
    NormalizeIsKeepUnfold(ab, s);
    r := RegularAll(b);
  }

  /** Normalising a concatenation is normalising its parts. */
  lemma {:induction false} NormalizeAppend(ab: Alphabet, a: string, b: string)
    ensures Normalize(ab, a + b) == Normalize(ab, a) + Normalize(ab, b)
  {
    if a == [] {
      assert a + b == b;
    } else {
      assert (a + b)[1..] == a[1..] + b;
      NormalizeAppend(ab, a[1..], b);
    }
  }

  /** A character that `Normalize` maps to itself. */
  ghost predicate Fixed(ab: Alphabet, c: char) { Normalize(ab, [c]) == [c] }

  lemma NormalizeOne(ab: Alphabet, c: char)
    requires ab.unfold(c) == [c]
    ensures Normalize(ab, [c]) == Keep(ab, c)
  {
    assert Normalize(ab, [c][1..]) == [] && KeepAll(ab, [c][1..]) == [];
    assert KeepAll(ab, [c]) == Keep(ab, c) + [];
  }

  lemma KeepIsFixed(ab: Alphabet, c: char)
    requires Lawful(ab) && (IsHebrew(c) || ab.unfold(c) == [c])
    ensures forall d <- Keep(ab, c) :: Fixed(ab, d)
  {
    if ab.IsWordChar(c) {
      var low := ab.toLower(c);
      var d := Regular(low);
      assert ab.unfold(low) == [low] && ab.IsWordChar(low) && ab.toLower(low) == low;
      assert ab.IsWordChar(d) && ab.toLower(d) == d && Regular(d) == d && ab.unfold(d) == [d] by {
        if d != low { assert IsHebrew(d); }
      }
      NormalizeOne(ab, d);
    }
  }

  lemma {:induction false} KeepAllIsFixed(ab: Alphabet, s: string)
    requires Lawful(ab) && forall c <- s :: IsHebrew(c) || ab.unfold(c) == [c]
    ensures forall d <- KeepAll(ab, s) :: Fixed(ab, d)
  {
    if s != [] {
      KeepIsFixed(ab, s[0]);
      KeepAllIsFixed(ab, s[1..]);
    }
  }

  lemma {:induction false} NormalizeIsFixed(ab: Alphabet, s: string)
    requires Lawful(ab)
    ensures forall d <- Normalize(ab, s) :: Fixed(ab, d)
  {
    if s != [] {
      KeepAllIsFixed(ab, ab.unfold(s[0]));
      NormalizeIsFixed(ab, s[1..]);
    }
  }

  lemma {:induction false} FixedStringIsNormal(ab: Alphabet, s: string)
    requires forall c <- s :: Fixed(ab, c)
    ensures Normalize(ab, s) == s
  {
    if s != [] {
      FixedStringIsNormal(ab, s[1..]);
      assert s == [s[0]] + s[1..] && Fixed(ab, s[0]);
      NormalizeAppend(ab, [s[0]], s[1..]);
    }
  }

  /** Normal forms are fixed points: comparing twice-normalised words changes nothing. */
  lemma NormalizeIdempotent(ab: Alphabet, s: string)
    requires Lawful(ab)
    ensures Normalize(ab, Normalize(ab, s)) == Normalize(ab, s)
  {
    NormalizeIsFixed(ab, s);
    FixedStringIsNormal(ab, Normalize(ab, s));
  }

  /** Punctuation, niqqud or any other non-word character put anywhere changes no comparison. */
  lemma NormalizeIgnoresInsertion(ab: Alphabet, a: string, c: char, b: string)
    requires ab.unfold(c) == [c] && !ab.IsWordChar(c)
    ensures Normalize(ab, a + [c] + b) == Normalize(ab, a + b)
  {
    NormalizeAppend(ab, a + [c], b);
    NormalizeAppend(ab, a, [c]);
    NormalizeAppend(ab, a, b);
    assert KeepAll(ab, [c]) == [];
  }

  // ----- prefixes -----

  predicate PrefixLetters(s: string) { forall c <- s :: c in PREFIX_LETTERS }

  /** `isPrefixed`: `long` is `short` behind one to three prefix letters. */
  predicate IsPrefixed(long: string, short: string) {
    var n := |long| - |short|;
    1 <= n <= MAX_PREFIX_LETTERS && MIN_STEM_LETTERS <= |short| && long[n..] == short && PrefixLetters(long[..n])
  }

  /** `h` starts with `s` after at most three prefix letters. */
  ghost predicate StartsAfterPrefix(h: string, s: string) {
    exists i :: 0 <= i <= MAX_PREFIX_LETTERS && i < |h| && PrefixLetters(h[..i]) && s <= h[i..]
  }

  /** The scanning loop inside `hintContainsSecret`. */
  method StartsWith(h: string, s: string) returns (found: bool)
    ensures found <==> StartsAfterPrefix(h, s)
  {
    var i := 0;
    while i <= MAX_PREFIX_LETTERS && i < |h|
      invariant 0 <= i <= MAX_PREFIX_LETTERS + 1 && i <= |h|
      invariant PrefixLetters(if i == 0 then [] else h[..i - 1])
      invariant forall k :: 0 <= k < i ==> !(s <= h[k..])
    {
      if i > 0 && h[i - 1] !in PREFIX_LETTERS {
        assert forall k :: i <= k <= |h| ==> h[..k][i - 1] == h[i - 1] && !PrefixLetters(h[..k]);
        return false;
      }
      assert i > 0 ==> h[..i] == h[..i - 1] + [h[i - 1]];
      if s <= h[i..] {
        return true;
      }
      i := i + 1;
    }
    return false;
  }

  predicate OccursAt(h: string, s: string, i: nat) { i + |s| <= |h| && h[i..i + |s|] == s }

  ghost predicate Occurs(h: string, s: string) { exists i: nat :: OccursAt(h, s, i) }

  /** `strings.Contains`. */
  method Contains(h: string, s: string) returns (found: bool)
    ensures found <==> Occurs(h, s)
  {
    var i := 0;
    while i + |s| <= |h|
      invariant 0 <= i
      invariant forall k: nat :: k < i ==> !OccursAt(h, s, k)
    {
      if h[i..i + |s|] == s { assert OccursAt(h, s, i); return true; }
      i := i + 1;
    }
    return false;
  }

  // ----- hintContainsSecret, sameHint, guessMatches -----

  /** `strings.Fields`: the maximal runs of non-space characters. */
  function Fields(ab: Alphabet, s: string): seq<string> { FieldsFrom(ab, s, []) }

  function FieldsFrom(ab: Alphabet, s: string, word: string): seq<string>
    decreases s
  {
    if s == [] then (if word == [] then [] else [word])
    else if ab.isSpace(s[0]) then (if word == [] then [] else [word]) + FieldsFrom(ab, s[1..], [])
    else FieldsFrom(ab, s[1..], word + [s[0]])
  }

  function TrimPrefix(h: string, c: char): string {
    if h != [] && h[0] == c then h[1..] else h
  }

  /** The rule for the secret taken whole, on normal forms. */
  ghost predicate ContainsWhole(h: string, s: string) {
    s != [] && ((MIN_INNER_SECRET <= |s| && Occurs(h, s)) || StartsAfterPrefix(h, s))
  }

  /** The rule for one word of a multiword secret, on normal forms. */
  ghost predicate ContainsPart(h: string, p: string) {
    if |p| == 0 then false
    else if |p| >= MIN_INNER_SECRET then StartsAfterPrefix(h, p)
    else if |p| == MIN_PREFIXED_PART then h == p || IsPrefixed(h, p)
    else h == p || TrimPrefix(h, HE) == p || TrimPrefix(h, BET) == p
  }

  ghost predicate ContainsSecret(ab: Alphabet, hint: string, secret: string) {
    var h, parts := Normalize(ab, hint), Fields(ab, secret);
    || ContainsWhole(h, Normalize(ab, secret))
    || (|parts| > 1 && exists k :: 0 <= k < |parts| && ContainsPart(h, Normalize(ab, parts[k])))
  }

  method HintContainsSecret(ab: Alphabet, hint: string, secret: string) returns (leaks: bool)
    ensures leaks <==> ContainsSecret(ab, hint, secret)
  {
    var h := NormalizeWord(ab, hint);
    var s := NormalizeWord(ab, secret);
    if s != "" {
      var inside := false;
      if |s| >= MIN_INNER_SECRET { inside := Contains(h, s); }
      var starts := StartsWith(h, s);
      if inside || starts { return true; }
    }
    var parts := Fields(ab, secret);
    if |parts| <= 1 { return false; }
    var k := 0;
    while k < |parts|
      invariant 0 <= k <= |parts|
      invariant forall j :: 0 <= j < k ==> !ContainsPart(h, Normalize(ab, parts[j]))
    {
      var p := NormalizeWord(ab, parts[k]);
      if |p| == 0 {
      } else if |p| >= MIN_INNER_SECRET {
        var starts := StartsWith(h, p);
        if starts { return true; }
      } else if |p| == MIN_PREFIXED_PART {
        if h == p || IsPrefixed(h, p) { return true; }
      } else {
        if h == p || TrimPrefix(h, HE) == p || TrimPrefix(h, BET) == p { return true; }
      }
      k := k + 1;
    }
    return false;
  }

  /** `sameHint` */
  predicate SameHint(ab: Alphabet, a: string, b: string) {
    var x, y := Normalize(ab, a), Normalize(ab, b);
    x == y || IsPrefixed(x, y) || IsPrefixed(y, x)
  }

  predicate MatchesOne(ab: Alphabet, guess: string, candidate: string) {
    var g, s := Normalize(ab, guess), Normalize(ab, candidate);
    g == s || IsPrefixed(g, s)
  }

  ghost predicate Accepts(ab: Alphabet, guess: string, secret: string, aliases: seq<string>) {
    MatchesOne(ab, guess, secret) || exists k :: 0 <= k < |aliases| && MatchesOne(ab, guess, aliases[k])
  }

  method GuessMatches(ab: Alphabet, guess: string, secret: string, aliases: seq<string>) returns (ok: bool)
    ensures ok <==> Accepts(ab, guess, secret, aliases)
  {
    if MatchesOne(ab, guess, secret) { return true; }
    var k := 0;
    while k < |aliases|
      invariant 0 <= k <= |aliases|
      invariant forall j :: 0 <= j < k ==> !MatchesOne(ab, guess, aliases[j])
    {
      if MatchesOne(ab, guess, aliases[k]) { return true; }
      k := k + 1;
    }
    return false;
  }

  /** A text that would win as a guess of the secret is refused as a citizen's hint. */
  lemma WinningGuessIsRefusedAsHint(ab: Alphabet, text: string, secret: string)
    requires Normalize(ab, secret) != [] && Accepts(ab, text, secret, [])
    ensures ContainsSecret(ab, text, secret)
  {
    var h, s := Normalize(ab, text), Normalize(ab, secret);
    var n := |h| - |s|;
    assert h[n..] == s && PrefixLetters(h[..n]);
    assert StartsAfterPrefix(h, s);
  }

  /** Spelling tricks do not help: only the normal form of a hint decides whether it leaks or repeats. */
  lemma VerdictDependsOnNormalForm(ab: Alphabet, a: string, b: string, secret: string, other: string)
    requires Lawful(ab) && Normalize(ab, a) == Normalize(ab, b)
    ensures ContainsSecret(ab, a, secret) <==> ContainsSecret(ab, Normalize(ab, b), secret)
    ensures SameHint(ab, a, other) <==> SameHint(ab, Normalize(ab, b), Normalize(ab, other))
  {
    NormalizeIdempotent(ab, b);
    NormalizeIdempotent(ab, other);
  }

  // ----- cleanHint and strings.TrimSpace -----

  predicate IsFiller(c: char) {
    c == '\U{2800}' || c == '\U{3164}' || c == '\U{115F}' || c == '\U{1160}' || c == '\U{FFA0}'
  }

  function CleanHint(ab: Alphabet, s: string): string {
    if s == [] then []
    else if ab.isFormat(s[0]) then CleanHint(ab, s[1..])
    else [if IsFiller(s[0]) then ' ' else s[0]] + CleanHint(ab, s[1..])
  }

  function TrimLeft(ab: Alphabet, s: string): string {
    if s != [] && ab.isSpace(s[0]) then TrimLeft(ab, s[1..]) else s
  }

  function TrimRight(ab: Alphabet, s: string): string {
    if s != [] && ab.isSpace(s[|s| - 1]) then TrimRight(ab, s[..|s| - 1]) else s
  }

  function TrimSpace(ab: Alphabet, s: string): string { TrimRight(ab, TrimLeft(ab, s)) }

  // ----- what tidying keeps -----

  ghost predicate Blank(ab: Alphabet, c: char) { ab.unfold(c) == [c] && !ab.IsWordChar(c) }

  /** Format characters and spaces are neither letters nor digits, and fillers have no case. */
  ghost predicate Printable(ab: Alphabet) {
    && Blank(ab, ' ') && (forall c :: ab.isFormat(c) || ab.isSpace(c) ==> Blank(ab, c))
    && (forall c :: IsFiller(c) ==> ab.unfold(c) == [c] && ab.toLower(c) == c)
  }

  ghost predicate Filled(s: string) { exists c :: c in s && IsFiller(c) }

  lemma HebrewAndAsciiIsPrintable()
    ensures Printable(HEBREW_AND_ASCII)
  {
    hide IsFiller;
    forall c | IsFiller(c) ensures PresentationForm(c) == [c] && !('A' <= c <= 'Z') {
      FillerStays(c);
    }
  }

  lemma FillerStays(c: char)
    requires IsFiller(c)
    ensures PresentationForm(c) == [c] && !('A' <= c <= 'Z')
  {
  }

  lemma NormalizeFirst(ab: Alphabet, s: string)
    requires s != []
    ensures Normalize(ab, s) == Normalize(ab, [s[0]]) + Normalize(ab, s[1..])
  {
    assert s == [s[0]] + s[1..];
    NormalizeAppend(ab, [s[0]], s[1..]);
  }

  lemma {:induction false} CleanKeepsNormalForm(ab: Alphabet, s: string)
    requires Printable(ab) && !Filled(Normalize(ab, s))
    ensures Normalize(ab, CleanHint(ab, s)) == Normalize(ab, s)
  {
    hide Normalize, Printable, IsFiller;
    if s != [] {
      var c := s[0];
      NormalizeFirst(ab, s);
      assert forall d :: d in Normalize(ab, s[1..]) ==> d in Normalize(ab, s);
      assert forall d :: d in Normalize(ab, [c]) ==> d in Normalize(ab, s);
      CleanKeepsNormalForm(ab, s[1..]);
      CleanOne(ab, c);
      if !ab.isFormat(c) { NormalizeAppend(ab, [if IsFiller(c) then ' ' else c], CleanHint(ab, s[1..])); }
    }
  }

  lemma CleanOne(ab: Alphabet, c: char)
    requires Printable(ab) && !Filled(Normalize(ab, [c]))
    ensures ab.isFormat(c) ==> Normalize(ab, [c]) == []
    ensures IsFiller(c) ==> Normalize(ab, [c]) == Normalize(ab, [' '])
  {
    hide Normalize;
    if ab.isFormat(c) { NormalizeOne(ab, c); }
    if IsFiller(c) {
      NormalizeOne(ab, c);
      NormalizeOne(ab, ' ');
      assert Regular(c) == c;
      assert ab.IsWordChar(c) ==> c in Normalize(ab, [c]);
    }
  }

  lemma {:induction false} TrimLeftKeepsNormalForm(ab: Alphabet, s: string)
    requires Printable(ab)
    ensures Normalize(ab, TrimLeft(ab, s)) == Normalize(ab, s)
  {
    if s != [] && ab.isSpace(s[0]) {
      NormalizeFirst(ab, s);
      NormalizeOne(ab, s[0]);
      TrimLeftKeepsNormalForm(ab, s[1..]);
    }
  }

  lemma {:induction false} TrimRightKeepsNormalForm(ab: Alphabet, s: string)
    requires Printable(ab)
    ensures Normalize(ab, TrimRight(ab, s)) == Normalize(ab, s)
    decreases |s|
  {
    var n := |s| - 1;
    if s != [] && ab.isSpace(s[n]) {
      assert s == s[..n] + [s[n]];
      NormalizeAppend(ab, s[..n], [s[n]]);
      NormalizeOne(ab, s[n]);
      TrimRightKeepsNormalForm(ab, s[..n]);
    }
  }

  /** Tidying a hint never changes its normal form, unless a filler is part of that. */
  lemma TidyingKeepsNormalForm(ab: Alphabet, s: string)
    requires Printable(ab) && !Filled(Normalize(ab, s))
    ensures Normalize(ab, TrimSpace(ab, CleanHint(ab, s))) == Normalize(ab, s)
  {
    CleanKeepsNormalForm(ab, s);
    TrimLeftKeepsNormalForm(ab, CleanHint(ab, s));
    TrimRightKeepsNormalForm(ab, TrimLeft(ab, CleanHint(ab, s)));
  }

  /** ... so what would win as a guess still leaks once it is tidied. */
  lemma WinningGuessLeaksTidied(ab: Alphabet, text: string, secret: string)
    requires Printable(ab) && Normalize(ab, secret) != [] && !Filled(Normalize(ab, secret))
    requires Accepts(ab, text, secret, [])
    ensures ContainsSecret(ab, TrimSpace(ab, CleanHint(ab, text)), secret)
  {
    var g, s, n := Normalize(ab, text), Normalize(ab, secret), |Normalize(ab, text)| - |Normalize(ab, secret)|;
    assert g == g[..n] + s && PrefixLetters(g[..n]);
    TidyingKeepsNormalForm(ab, text);
    WinningGuessIsRefusedAsHint(ab, TrimSpace(ab, CleanHint(ab, text)), secret);
  }

  const FILLER := '\U{3164}'

  /** The same alphabet, with the one filler that Unicode counts as a letter (the Hangul filler). */
  const WITH_FILLER := HEBREW_AND_ASCII.(isLetter := c => HEBREW_AND_ASCII.isLetter(c) || c == FILLER)

  lemma FillerIsALetter()
    ensures Printable(WITH_FILLER)
    ensures Normalize(WITH_FILLER, [FILLER]) == [FILLER] && Normalize(WITH_FILLER, [' ']) == []
    ensures Normalize(WITH_FILLER, ['a']) == ['a']
  {
    hide IsFiller;
    forall c | IsFiller(c) ensures PresentationForm(c) == [c] && !('A' <= c <= 'Z') {
      FillerStays(c);
    }
    NormalizeOne(WITH_FILLER, FILLER);
    NormalizeOne(WITH_FILLER, ' ');
    NormalizeOne(WITH_FILLER, 'a');
  }

  /** A secret of one word is never contained in a shorter hint. */
  lemma LongerIsNotContained(ab: Alphabet, hint: string, secret: string)
    requires |Normalize(ab, hint)| < |Normalize(ab, secret)| && |Fields(ab, secret)| <= 1
    ensures !ContainsSecret(ab, hint, secret)
  {
  }

  lemma FillerIsTidied(ab: Alphabet)
    requires !ab.isFormat(FILLER) && !ab.isFormat('a') && ab.isSpace(' ') && !ab.isSpace('a') && !ab.isSpace(FILLER)
    ensures TrimSpace(ab, CleanHint(ab, [FILLER, 'a'])) == ['a'] && Fields(ab, [FILLER, 'a']) == [[FILLER, 'a']]
  {
    var s: string := [FILLER, 'a'];
    assert s[1..] == ['a'] && ['a'][1..] == [];
    assert CleanHint(ab, ['a']) == ['a'];
    assert CleanHint(ab, s) == [' ', 'a'];
    assert TrimLeft(ab, [' ', 'a']) == TrimLeft(ab, [' ', 'a'][1..]);
    var word: string := [FILLER];
    assert word + ['a'] == s && [] + word == word;
    assert FieldsFrom(ab, [], s) == [s];
    assert FieldsFrom(ab, ['a'], word) == FieldsFrom(ab, ['a'][1..], word + ['a']);
    assert FieldsFrom(ab, s, []) == FieldsFrom(ab, s[1..], [] + word);
  }

  /** A secret spelled with a filler may be hinted: the guess keeps the filler, and tidying takes it from the hint. */
  lemma FilledSecretIsHinted()
    ensures Printable(WITH_FILLER)
    ensures var ab, secret := WITH_FILLER, [FILLER, 'a'];
      Accepts(ab, secret, secret, []) && !ContainsSecret(ab, TrimSpace(ab, CleanHint(ab, secret)), secret)
  {
    hide Normalize, Printable, ContainsSecret, PresentationForm, TrimSpace, CleanHint, Fields;
    FillerIsALetter();
    FillerIsTidied(WITH_FILLER);
    NormalizeFirst(WITH_FILLER, [FILLER, 'a']);
    assert [FILLER, 'a'][1..] == ['a'];
    LongerIsNotContained(WITH_FILLER, ['a'], [FILLER, 'a']);
  }
}
