/**
 * What the word rules mean, in terms of what is written before and after what: the verdicts of `Words`
 * without their loops and slices.
 */
module WordLaws {
  import opened Words

  // ----- normal forms, letter by letter -----

  /** A letter or digit is kept in lower case, anything else is dropped; Hebrew final letters become regular ones. */
  lemma NormalOfPlain(ab: Alphabet, c: char)
    requires ab.unfold(c) == [c]
    ensures !ab.isLetter(c) && !ab.isDigit(c) ==> Normalize(ab, [c]) == []
    ensures (ab.isLetter(c) || ab.isDigit(c)) && !FinalLetter(ab.toLower(c)) ==> Normalize(ab, [c]) == [ab.toLower(c)]
  {
    NormalizeOne(ab, c);
  }

  predicate FinalLetter(c: char) {
    c == '\U{05DA}' || c == '\U{05DD}' || c == '\U{05DF}' || c == '\U{05E3}' || c == '\U{05E5}'
  }

  /** Kaf, mem, nun, pe and tsadi at the end of a word are written as elsewhere: each is the next letter. */
  lemma NormalOfFinal(ab: Alphabet, c: char)
    requires Lawful(ab) && FinalLetter(c)
    ensures Normalize(ab, [c]) == [(c as int + 1) as char]
  {
    NormalizeOne(ab, c);
  }

  /** A presentation form counts as the letters it draws. */
  lemma NormalOfForm(ab: Alphabet, c: char)
    requires Lawful(ab) && ab.unfold(c) != [c]
    ensures Normalize(ab, [c]) == Normalize(ab, ab.unfold(c))
  {
    assert [c][1..] == [];
    assert Normalize(ab, [c]) == KeepAll(ab, ab.unfold(c)) + [];
    UnfoldedIsKept(ab, ab.unfold(c));
  }

  lemma {:induction false} UnfoldedIsKept(ab: Alphabet, s: string)
    requires forall c <- s :: ab.unfold(c) == [c]
    ensures Normalize(ab, s) == KeepAll(ab, s)
  {
    if s != [] {
      UnfoldedIsKept(ab, s[1..]);
      assert [s[0]][1..] == [] && KeepAll(ab, [s[0]]) == Keep(ab, s[0]) + [];
    }
  }

  // ----- prefixes -----

  /** `long` is `short` behind one to three of the prefix letters; `short` has two letters at least. */
  ghost predicate Behind(long: string, short: string) {
    2 <= |short| && exists p: string :: IsBehind(long, p, short)
  }

  ghost predicate IsBehind(long: string, p: string, rest: string) {
    1 <= |p| <= 3 && (forall c <- p :: PrefixLetter(c)) && long == p + rest
  }

  /** Vav, he, bet, kaf, lamed, mem and shin. */
  predicate PrefixLetter(c: char) {
    c == '\U{05D5}' || c == '\U{05D4}' || c == '\U{05D1}' || c == '\U{05DB}' || c == '\U{05DC}' || c == '\U{05DE}' ||
      c == '\U{05E9}'
  }

  lemma PrefixLettersAre(s: string)
    ensures PrefixLetters(s) <==> forall c <- s :: PrefixLetter(c)
  {
    assert forall c :: c in PREFIX_LETTERS <==> PrefixLetter(c);
  }

  lemma PrefixedIsBehind(long: string, short: string)
    ensures IsPrefixed(long, short) <==> Behind(long, short)
  {
    var n := |long| - |short|;
    if IsPrefixed(long, short) {
      PrefixLettersAre(long[..n]);
      assert IsBehind(long, long[..n], short);
    }
    if Behind(long, short) {
      var p: string :| IsBehind(long, p, short);
      PrefixLettersAre(p);
      assert long[..n] == p && long[n..] == short;
    }
  }

  // ----- repeats and guesses -----

  /** Two hints are the same when one normal form is the other, or stands behind prefix letters. */
  lemma SameHintMeans(ab: Alphabet, a: string, b: string)
    ensures var x, y := Normalize(ab, a), Normalize(ab, b);
      SameHint(ab, a, b) <==> x == y || Behind(x, y) || Behind(y, x)
    ensures SameHint(ab, a, b) <==> SameHint(ab, b, a)
  {
    PrefixedIsBehind(Normalize(ab, a), Normalize(ab, b));
    PrefixedIsBehind(Normalize(ab, b), Normalize(ab, a));
  }

  /** A guess is right when it is the secret or an alias, perhaps behind prefix letters; never the other way about. */
  lemma RightGuessMeans(ab: Alphabet, guess: string, secret: string, aliases: seq<string>)
    ensures Accepts(ab, guess, secret, aliases) <==>
      exists w :: (w == secret || w in aliases) && RightFor(ab, guess, w)
  {
    hide Normalize, IsPrefixed, Behind;
    forall w ensures MatchesOne(ab, guess, w) <==> RightFor(ab, guess, w) {
      PrefixedIsBehind(Normalize(ab, guess), Normalize(ab, w));
    }
    if Accepts(ab, guess, secret, aliases) {
      if MatchesOne(ab, guess, secret) {
        assert RightFor(ab, guess, secret);
      } else {
        var k :| 0 <= k < |aliases| && MatchesOne(ab, guess, aliases[k]);
        assert aliases[k] in aliases && RightFor(ab, guess, aliases[k]);
      }
    }
    if w :| (w == secret || w in aliases) && RightFor(ab, guess, w) {
      if w != secret { var k :| 0 <= k < |aliases| && aliases[k] == w; }
    }
  }

  ghost predicate RightFor(ab: Alphabet, guess: string, word: string) {
    Normalize(ab, guess) == Normalize(ab, word) || Behind(Normalize(ab, guess), Normalize(ab, word))
  }

  // ----- leaks -----

  /** `s` stands in `h` behind at most three prefix letters, whatever follows. */
  ghost predicate Starts(h: string, s: string) { exists p: string, rest: string :: StandsAt(h, p, s, rest) }

  ghost predicate StandsAt(h: string, p: string, s: string, rest: string) {
    |p| <= 3 && (forall c <- p :: PrefixLetter(c)) && h == p + s + rest
  }

  /** `s` stands anywhere in `h`. */
  ghost predicate Inside(h: string, s: string) { exists p: string, rest: string :: Around(h, p, s, rest) }

  ghost predicate Around(h: string, p: string, s: string, rest: string) { h == p + s + rest }

  lemma StartsMeans(h: string, s: string)
    requires s != []
    ensures StartsAfterPrefix(h, s) <==> Starts(h, s)
  {
    hide PrefixLetters, PrefixLetter;
    if StartsAfterPrefix(h, s) {
      var i :| 0 <= i <= MAX_PREFIX_LETTERS && i < |h| && PrefixLetters(h[..i]) && s <= h[i..];
      StartsAt(h, i, s);
    }
    if Starts(h, s) {
      var p: string, rest: string :| StandsAt(h, p, s, rest);
      Standing(h, p, s, rest);
    }
  }

  lemma StartsAt(h: string, i: nat, s: string)
    requires i <= MAX_PREFIX_LETTERS && i < |h| && PrefixLetters(h[..i]) && s <= h[i..]
    ensures StandsAt(h, h[..i], s, h[i..][|s|..])
  {
    hide PrefixLetters, PrefixLetter;
    PrefixLettersAre(h[..i]);
    assert h == h[..i] + h[i..];
  }

  lemma Standing(h: string, p: string, s: string, rest: string)
    requires StandsAt(h, p, s, rest) && s != []
    ensures |p| < |h| && PrefixLetters(h[..|p|]) && s <= h[|p|..]
  {
    hide PrefixLetters, PrefixLetter;
    PrefixLettersAre(p);
    assert h[..|p|] == p && h[|p|..] == s + rest;
  }

  lemma OccursMeans(h: string, s: string)
    ensures Occurs(h, s) <==> Inside(h, s)
  {
    if Occurs(h, s) {
      var i: nat :| OccursAt(h, s, i);
      assert Around(h, h[..i], s, h[i + |s|..]);
    }
    if Inside(h, s) {
      var p: string, rest: string :| Around(h, p, s, rest);
      assert h[|p|..|p| + |s|] == s;
      assert OccursAt(h, s, |p|);
    }
  }

  /** The whole secret: four letters or more anywhere, fewer at the start behind prefix letters. */
  ghost predicate GivesWhole(h: string, s: string) { s != [] && (Starts(h, s) || (4 <= |s| && Inside(h, s))) }

  /**
   * One word of several: four letters or more at the start behind prefix letters, three alone or behind
   * prefix letters, one or two alone or behind he or bet.
   */
  ghost predicate GivesPart(h: string, p: string) {
    || (4 <= |p| && Starts(h, p))
    || (|p| == 3 && (h == p || Behind(h, p)))
    || (1 <= |p| <= 2 && (h == p || h == ['\U{05D4}'] + p || h == ['\U{05D1}'] + p))
  }

  lemma PartMeans(h: string, p: string)
    ensures ContainsPart(h, p) <==> GivesPart(h, p)
  {
    if p != [] {
      StartsMeans(h, p);
      PrefixedIsBehind(h, p);
      TrimMeans(h, HE, p);
      TrimMeans(h, BET, p);
    }
  }

  lemma TrimMeans(h: string, c: char, p: string)
    ensures TrimPrefix(h, c) == p ==> h == p || h == [c] + p
    ensures h == [c] + p ==> TrimPrefix(h, c) == p
  {
  }

  /** A hint gives the secret away by the rule for the whole, or by that for one of its words if it has several. */
  lemma LeakMeans(ab: Alphabet, hint: string, secret: string)
    ensures var h, words := Normalize(ab, hint), Fields(ab, secret);
      ContainsSecret(ab, hint, secret) <==>
        || GivesWhole(h, Normalize(ab, secret))
        || (1 < |words| && exists w :: w in words && GivesPart(h, Normalize(ab, w)))
  {
    hide Normalize, Fields, ContainsPart, GivesPart, Starts, Inside, Occurs, StartsAfterPrefix;
    var h, s, words := Normalize(ab, hint), Normalize(ab, secret), Fields(ab, secret);
    if s != [] {
      StartsMeans(h, s);
      OccursMeans(h, s);
    }
    forall w ensures ContainsPart(h, Normalize(ab, w)) <==> GivesPart(h, Normalize(ab, w)) {
      PartMeans(h, Normalize(ab, w));
    }
    if w :| w in words && GivesPart(h, Normalize(ab, w)) {
      var k :| 0 <= k < |words| && words[k] == w;
      assert ContainsPart(h, Normalize(ab, words[k]));
    }
  }

  // ----- words of a text, and tidying -----

  ghost predicate Unbroken(ab: Alphabet, s: string) { forall c <- s :: !ab.isSpace(c) }

  lemma {:induction false} FieldsOfUnbroken(ab: Alphabet, s: string, word: string)
    requires Unbroken(ab, s)
    ensures FieldsFrom(ab, s, word) == if word + s == [] then [] else [word + s]
    decreases s
  {
    if s != [] {
      FieldsOfUnbroken(ab, s[1..], word + [s[0]]);
      assert word + [s[0]] + s[1..] == word + s;
    } else {
      assert word + s == word;
    }
  }

  lemma {:induction false} FieldsSplit(ab: Alphabet, a: string, c: char, b: string, word: string)
    requires ab.isSpace(c)
    ensures FieldsFrom(ab, a + [c] + b, word) == FieldsFrom(ab, a, word) + FieldsFrom(ab, b, [])
    decreases a
  {
    var s := a + [c] + b;
    if a == [] {
      assert s[1..] == b;
    } else {
      assert s[1..] == a[1..] + [c] + b;
      if ab.isSpace(a[0]) {
        FieldsSplit(ab, a[1..], c, b, []);
      } else {
        FieldsSplit(ab, a[1..], c, b, word + [a[0]]);
      }
    }
  }

  /** The words of a text: one if it is unbroken, none if it is empty, and spaces only part the words around them. */
  lemma FieldsMean(ab: Alphabet, a: string, c: char, b: string)
    ensures Fields(ab, []) == []
    ensures a != [] && Unbroken(ab, a) ==> Fields(ab, a) == [a]
    ensures ab.isSpace(c) ==> Fields(ab, a + [c] + b) == Fields(ab, a) + Fields(ab, b)
  {
    if Unbroken(ab, a) { FieldsOfUnbroken(ab, a, []); }
    assert [] + a == a;
    if ab.isSpace(c) { FieldsSplit(ab, a, c, b, []); }
  }

  lemma {:induction false} CleanAppend(ab: Alphabet, a: string, b: string)
    ensures CleanHint(ab, a + b) == CleanHint(ab, a) + CleanHint(ab, b)
  {
    if a == [] {
      assert a + b == b;
    } else {
      assert (a + b)[1..] == a[1..] + b;
      CleanAppend(ab, a[1..], b);
    }
  }

  /** Cleaning works character by character: format characters go, fillers become spaces, all else stays. */
  lemma CleaningMeans(ab: Alphabet, a: string, c: char)
    ensures CleanHint(ab, []) == []
    ensures CleanHint(ab, a + [c]) ==
      CleanHint(ab, a) + if ab.isFormat(c) then [] else if IsFiller(c) then [' '] else [c]
  {
    CleanAppend(ab, a, [c]);
    assert [c][1..] == [];
  }

  ghost predicate Blanks(ab: Alphabet, s: string) { forall c <- s :: ab.isSpace(c) }

  ghost predicate Trimmed(ab: Alphabet, s: string, x: string, p: string, q: string) {
    s == p + x + q && Blanks(ab, p) && Blanks(ab, q)
  }

  lemma {:induction false} TrimLeftMeans(ab: Alphabet, s: string) returns (p: string)
    ensures s == p + TrimLeft(ab, s) && Blanks(ab, p)
    ensures TrimLeft(ab, s) != [] ==> !ab.isSpace(TrimLeft(ab, s)[0])
  {
    if s != [] && ab.isSpace(s[0]) {
      p := TrimLeftMeans(ab, s[1..]);
      p := [s[0]] + p;
    } else {
      p := [];
    }
  }

  lemma {:induction false} TrimRightMeans(ab: Alphabet, s: string) returns (q: string)
    ensures s == TrimRight(ab, s) + q && Blanks(ab, q)
    ensures var x := TrimRight(ab, s); x != [] ==> !ab.isSpace(x[|x| - 1]) && x[0] == s[0]
    decreases |s|
  {
    var n := |s| - 1;
    if s != [] && ab.isSpace(s[n]) {
      q := TrimRightMeans(ab, s[..n]);
      q := q + [s[n]];
    } else {
      q := [];
    }
  }

  /** Trimming takes the spaces from both ends, and nothing else. */
  lemma TrimmingMeans(ab: Alphabet, s: string)
    ensures var x := TrimSpace(ab, s);
      && (x != [] ==> !ab.isSpace(x[0]) && !ab.isSpace(x[|x| - 1]))
      && exists p: string, q: string :: Trimmed(ab, s, x, p, q)
  {
    var p := TrimLeftMeans(ab, s);
    var q := TrimRightMeans(ab, TrimLeft(ab, s));
    assert Trimmed(ab, s, TrimSpace(ab, s), p, q);
  }
}
