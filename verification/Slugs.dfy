/** Slug normalisation, shared by group and project handlers.

    Character classification belongs to the platform, so it is a parameter: everything below holds
    for every table that obeys `Lawful`, which the platform's Unicode tables do. */
module Slugs {

  datatype CharTable = CharTable(isLetterOrDigit: char -> bool, toLower: char -> char, isSpace: char -> bool)

  predicate IsSeparator(c: char) {
    c == '-' || c == '_' || c == ' ' || c == '.' || c == '/'
  }

  predicate IsHyphen(c: char) {
    c == '-'
  }

  /** What the proofs need to know about the platform's tables. */
  ghost predicate Lawful(t: CharTable) {
    && (forall c :: t.toLower(t.toLower(c)) == t.toLower(c))
    && t.toLower('-') == '-'
    && !t.isSpace('-')
    && (forall c :: t.isLetterOrDigit(c) ==> !t.isSpace(c) && !IsSeparator(c))
  }

  /** The ASCII part of the platform's tables. */
  const ASCII: CharTable := CharTable(
    c => '0' <= c <= '9' || 'a' <= c <= 'z' || 'A' <= c <= 'Z',
    c => if 'A' <= c <= 'Z' then (c as int + 32) as char else c,
    c => c == ' ' || c == '\t' || c == '\n' || c == '\r')

  lemma AsciiIsLawful()
    ensures Lawful(ASCII)
  {
    assert forall c :: 'A' <= c <= 'Z' ==> 'a' <= ASCII.toLower(c) <= 'z';
  }

  // ---- library functions the handlers call ----

  function TrimStart(s: string, drop: char -> bool): string {
    if s != "" && drop(s[0]) then TrimStart(s[1..], drop) else s
  }

  function TrimEnd(s: string, drop: char -> bool): string {
    if s != "" && drop(s[|s| - 1]) then TrimEnd(s[..|s| - 1], drop) else s
  }

  function Trim(s: string, drop: char -> bool): string {
    TrimEnd(TrimStart(s, drop), drop)
  }

  function Lower(t: CharTable, s: string): (r: string)
    ensures |r| == |s| && forall i | 0 <= i < |s| :: r[i] == t.toLower(s[i])
  {
    seq(|s|, i requires 0 <= i < |s| => t.toLower(s[i]))
  }

  // ---- reference meaning: keep letters, digits and separators; split at separators; join with '-' ----

  function Kept(t: CharTable, s: string): string {
    if s == "" then ""
    else
      var c := s[|s| - 1];
      Kept(t, s[..|s| - 1]) + (if t.isLetterOrDigit(c) || IsSeparator(c) then [c] else "")
  }

  function Split(s: string): (words: seq<string>)
    ensures words != []
  {
    if s == "" then [""]
    else
      var words := Split(s[..|s| - 1]);
      var c := s[|s| - 1];
      if IsSeparator(c) then words + [""]
      else words[..|words| - 1] + [words[|words| - 1] + [c]]
  }

  function NonEmpty(words: seq<string>): seq<string> {
    if words == [] then []
    else
      var w := words[|words| - 1];
      NonEmpty(words[..|words| - 1]) + (if w == "" then [] else [w])
  }

  function JoinWith(separator: char, words: seq<string>): string {
    if words == [] then ""
    else if |words| == 1 then words[0]
    else JoinWith(separator, words[..|words| - 1]) + [separator] + words[|words| - 1]
  }

  /** The slug of a raw string, stated without the scanning loop. */
  function Slug(t: CharTable, raw: string): string {
    JoinWith('-', NonEmpty(Split(Kept(t, Lower(t, Trim(raw, t.isSpace))))))
  }

  /** Letters, digits and hyphens, with every hyphen between two other characters. */
  ghost predicate Tidy(t: CharTable, s: string) {
    && (forall i | 0 <= i < |s| :: s[i] == '-' || t.isLetterOrDigit(s[i]))
    && (s != "" ==> s[0] != '-' && s[|s| - 1] != '-')
    && (forall i | 0 <= i < |s| - 1 :: s[i] == '-' ==> s[i + 1] != '-')
  }

  ghost predicate Lowered(t: CharTable, s: string) {
    forall i | 0 <= i < |s| :: t.toLower(s[i]) == s[i]
  }

  /** A canonical slug: lower-cased letters and digits, single inner hyphens. */
  ghost predicate Canonical(t: CharTable, s: string) {
    Tidy(t, s) && Lowered(t, s)
  }

  // ---- the loop ----

  /** The handlers' scan: one pass, emitting '-' for the first separator after a kept character. */
  method NormalizeSlug(t: CharTable, raw: string) returns (slug: string)
    requires Lawful(t)
    ensures slug == Slug(t, raw)
  {
    var text := Lower(t, Trim(raw, t.isSpace));
    var sb := "";
    var lastWasSeparator := false;
    for i := 0 to |text|
      invariant ScanState(Split(Kept(t, text[..i])), sb, lastWasSeparator)
    {
      var ch := text[i];
      assert text[..i + 1][..i] == text[..i];
      if IsSeparator(ch) {
        ScanSeparator(Kept(t, text[..i]), ch, sb, lastWasSeparator);
      } else {
        ScanCharacter(Kept(t, text[..i]), ch, sb, lastWasSeparator);
      }
      if t.isLetterOrDigit(ch) {
        sb := sb + [ch];
        lastWasSeparator := false;
      } else if IsSeparator(ch) {
        if |sb| > 0 && !lastWasSeparator {
          sb := sb + ['-'];
          lastWasSeparator := true;
        }
      }
    }
    assert text[..|text|] == text;
    slug := Trim(sb, IsHyphen);
    ScanResult(t, text, sb, lastWasSeparator);
  }

  /** The buffer holds the finished words, plus a pending hyphen once a separator followed them. */
  ghost predicate ScanState(words: seq<string>, sb: string, lastWasSeparator: bool)
    requires words != []
  {
    var open := words[|words| - 1];
    var joined := JoinWith('-', NonEmpty(words));
    && lastWasSeparator == (open == "" && NonEmpty(words) != [])
    && sb == (if lastWasSeparator then joined + "-" else joined)
  }

  lemma ScanCharacter(kept: string, ch: char, sb: string, last: bool)
    requires ScanState(Split(kept), sb, last) && !IsSeparator(ch)
    ensures ScanState(Split(kept + [ch]), sb + [ch], false)
    ensures kept + "" == kept
  {
    assert (kept + [ch])[..|kept|] == kept;
    CharacterStep(Split(kept), ch, sb, last);
  }

  lemma ScanSeparator(kept: string, ch: char, sb: string, last: bool)
    requires ScanState(Split(kept), sb, last) && IsSeparator(ch)
    ensures ScanState(Split(kept + [ch]), if |sb| == 0 || last then sb else sb + "-", last || |sb| > 0)
    ensures kept + "" == kept
  {
    assert (kept + [ch])[..|kept|] == kept;
    SeparatorStep(Split(kept), sb, last);
  }

  lemma SeparatorStep(words: seq<string>, sb: string, last: bool)
    requires words != [] && ScanState(words, sb, last)
    ensures ScanState(words + [""], if |sb| == 0 || last then sb else sb + "-", last || |sb| > 0)
  {
    assert (words + [""])[..|words|] == words;
    assert NonEmpty(words + [""]) == NonEmpty(words);
    WordsJoinEmptyOnlyIfNone(words);
  }

  lemma CharacterStep(words: seq<string>, ch: char, sb: string, last: bool)
    requires words != [] && ScanState(words, sb, last)
    ensures ScanState(words[..|words| - 1] + [words[|words| - 1] + [ch]], sb + [ch], false)
  {
    var n := |words| - 1;
    var closed := NonEmpty(words[..n]);
    var next := words[..n] + [words[n] + [ch]];
    assert next[..n] == words[..n];
    assert NonEmpty(next) == closed + [words[n] + [ch]];
    JoinSnoc(closed, words[n] + [ch]);
    if words[n] == "" {
      assert NonEmpty(words) == closed;
    } else {
      assert NonEmpty(words) == closed + [words[n]];
      JoinSnoc(closed, words[n]);
    }
  }

  lemma JoinSnoc(words: seq<string>, w: string)
    ensures JoinWith('-', words + [w]) == (if words == [] then w else JoinWith('-', words) + "-" + w)
  {
    assert (words + [w])[..|words|] == words;
  }

  lemma {:induction false} WordsJoinEmptyOnlyIfNone(words: seq<string>)
    ensures forall w | w in NonEmpty(words) :: w != ""
    ensures JoinWith('-', NonEmpty(words)) == "" <==> NonEmpty(words) == []
  {
    if words != [] {
      WordsJoinEmptyOnlyIfNone(words[..|words| - 1]);
      var kept := NonEmpty(words);
      if kept != [] {
        assert kept[|kept| - 1] in kept;
      }
    }
  }

  lemma ScanResult(t: CharTable, text: string, sb: string, last: bool)
    requires Lawful(t)
    requires ScanState(Split(Kept(t, text)), sb, last)
    ensures Trim(sb, IsHyphen) == JoinWith('-', NonEmpty(Split(Kept(t, text))))
  {
    var words := Split(Kept(t, text));
    KeptWords(t, text);
    NonEmptyIsFilter(words);
    JoinedWords(t, NonEmpty(words));
    if NonEmpty(words) != [] {
      assert NonEmpty(words)[0] in NonEmpty(words);
      WordsAreNotLost(NonEmpty(words));
    }
    TrimmedOnce(JoinWith('-', NonEmpty(words)));
  }

  lemma TrimmedOnce(s: string)
    requires s != "" ==> s[0] != '-' && s[|s| - 1] != '-'
    ensures Trim(s, IsHyphen) == s
    ensures s != "" ==> Trim(s + "-", IsHyphen) == s
  {
    assert (s + "-")[..|s|] == s;
    assert s != "" ==> TrimStart(s + "-", IsHyphen) == s + "-";
  }

  // ---- the shape of the words ----

  ghost predicate Plain(t: CharTable, w: string) {
    forall i | 0 <= i < |w| :: t.isLetterOrDigit(w[i])
  }

  ghost predicate AllPlain(t: CharTable, words: seq<string>) {
    forall w | w in words :: Plain(t, w)
  }

  ghost predicate AllLowered(t: CharTable, words: seq<string>) {
    forall w | w in words :: Lowered(t, w)
  }

  /** One more letter or digit goes to the end of the last word. */
  lemma LastWordGrows(t: CharTable, words: seq<string>, c: char)
    requires words != [] && AllPlain(t, words) && t.isLetterOrDigit(c)
    ensures var longer := words[..|words| - 1] + [words[|words| - 1] + [c]];
            && AllPlain(t, longer)
            && (AllLowered(t, words) && t.toLower(c) == c ==> AllLowered(t, longer))
  {
    var n := |words| - 1;
    var w := words[n] + [c];
    assert words[n] in words;
    assert Plain(t, w);
    assert Lowered(t, words[n]) && t.toLower(c) == c ==> Lowered(t, w);
    forall v | v in words[..n] + [w]
      ensures v in words || v == w
    {
    }
  }

  /** Splitting the kept characters leaves words of letters and digits only. */
  lemma {:induction false} KeptWords(t: CharTable, text: string)
    requires Lawful(t)
    ensures AllPlain(t, Split(Kept(t, text)))
    ensures Lowered(t, text) ==> AllLowered(t, Split(Kept(t, text)))
  {
    if text != "" {
      var n := |text| - 1;
      KeptWords(t, text[..n]);
      KeptWordsStep(t, Kept(t, text[..n]), text[n]);
      assert Lowered(t, text) ==> Lowered(t, text[..n]) && t.toLower(text[n]) == text[n];
    }
  }

  lemma KeptWordsStep(t: CharTable, before: string, c: char)
    requires Lawful(t) && AllPlain(t, Split(before))
    ensures var after := before + if t.isLetterOrDigit(c) || IsSeparator(c) then [c] else [];
            && AllPlain(t, Split(after))
            && (AllLowered(t, Split(before)) && t.toLower(c) == c ==> AllLowered(t, Split(after)))
  {
    assert (before + [c])[..|before|] == before;
    if IsSeparator(c) {
      assert Split(before + [c]) == Split(before) + [""];
      assert forall w | w in Split(before) + [""] :: w in Split(before) || w == "";
    } else if t.isLetterOrDigit(c) {
      LastWordGrows(t, Split(before), c);
    } else {
      assert before + [] == before;
    }
  }

  lemma {:induction false} NonEmptyIsFilter(words: seq<string>)
    ensures forall w :: w in NonEmpty(words) <==> w in words && w != ""
  {
    if words != [] {
      NonEmptyIsFilter(words[..|words| - 1]);
      assert words == words[..|words| - 1] + [words[|words| - 1]];
    }
  }

  lemma TidyJoin(t: CharTable, a: string, b: string)
    requires Tidy(t, a) && Tidy(t, b) && a != "" && b != ""
    ensures Tidy(t, a + "-" + b)
  {
    var s := a + "-" + b;
    forall i | 0 <= i < |s|
      ensures s[i] == if i < |a| then a[i] else if i == |a| then '-' else b[i - |a| - 1]
    {
    }
  }

  lemma {:induction false} JoinedWords(t: CharTable, words: seq<string>)
    requires Lawful(t)
    requires forall w | w in words :: w != "" && Plain(t, w)
    ensures Tidy(t, JoinWith('-', words))
    ensures (forall w | w in words :: Lowered(t, w)) ==> Lowered(t, JoinWith('-', words))
  {
    if words != [] {
      var n := |words| - 1;
      var w := words[n];
      assert w in words;
      assert forall i | 0 <= i < |w| :: w[i] != '-';
      assert Tidy(t, w);
      if n > 0 {
        assert forall v | v in words[..n] :: v in words;
        JoinedWords(t, words[..n]);
        assert words[..n][0] in words[..n];
        WordsAreNotLost(words[..n]);
        TidyJoin(t, JoinWith('-', words[..n]), w);
      }
    }
  }

  lemma {:induction false} WordsAreNotLost(words: seq<string>)
    requires words != [] && words[0] != ""
    ensures JoinWith('-', words) != ""
  {
    if |words| > 1 {
      WordsAreNotLost(words[..|words| - 1]);
    }
  }

  // ---- what the handlers rely on ----

  /** Every slug is canonical, and in particular holds no '/'. */
  lemma SlugIsCanonical(t: CharTable, raw: string)
    requires Lawful(t)
    ensures Canonical(t, Slug(t, raw))
    ensures '/' !in Slug(t, raw)
  {
    var text := Lower(t, Trim(raw, t.isSpace));
    KeptWords(t, text);
    NonEmptyIsFilter(Split(Kept(t, text)));
    JoinedWords(t, NonEmpty(Split(Kept(t, text))));
  }

  /** The canonical strings are exactly the fixed points, so normalising twice changes nothing. */
  lemma CanonicalIffFixed(t: CharTable, s: string)
    requires Lawful(t)
    ensures Canonical(t, s) <==> Slug(t, s) == s
    ensures Slug(t, Slug(t, s)) == Slug(t, s)
  {
    SlugIsCanonical(t, s);
    CanonicalIsFixed(t, Slug(t, s));
    if Canonical(t, s) {
      CanonicalIsFixed(t, s);
    }
  }

  lemma CanonicalIsFixed(t: CharTable, s: string)
    requires Lawful(t) && Canonical(t, s)
    ensures Slug(t, s) == s
  {
    assert s != "" ==> !t.isSpace(s[0]) && !t.isSpace(s[|s| - 1]);
    assert Trim(s, t.isSpace) == s;
    assert Lower(t, s) == s;
    CanonicalIsKept(t, s);
    JoinInvertsSplit(s);
    CanonicalHasNoEmptyWord(s);
    if s != "" {
      NothingToFilter(Split(s));
    } else {
      assert NonEmpty([""]) == [];
    }
  }

  lemma {:induction false} CanonicalIsKept(t: CharTable, s: string)
    requires forall i | 0 <= i < |s| :: s[i] == '-' || t.isLetterOrDigit(s[i])
    ensures Kept(t, s) == s
  {
    if s != "" {
      CanonicalIsKept(t, s[..|s| - 1]);
    }
  }

  lemma {:induction false} JoinInvertsSplit(s: string)
    requires forall i | 0 <= i < |s| :: IsSeparator(s[i]) ==> s[i] == '-'
    ensures JoinWith('-', Split(s)) == s
  {
    if s != "" {
      var before := s[..|s| - 1];
      JoinInvertsSplit(before);
      var words := Split(before);
      var n := |words| - 1;
      if IsSeparator(s[|s| - 1]) {
        assert (words + [""])[..|words|] == words;
      } else {
        assert Split(s)[..n] == words[..n];
      }
      assert s == before + [s[|s| - 1]];
    }
  }

  lemma {:induction false} CanonicalHasNoEmptyWord(s: string)
    requires forall i | 0 <= i < |s| :: IsSeparator(s[i]) ==> s[i] == '-'
    requires s != "" ==> s[0] != '-'
    requires forall i | 0 <= i < |s| - 1 :: s[i] == '-' ==> s[i + 1] != '-'
    ensures forall k | 0 <= k < |Split(s)| - 1 :: Split(s)[k] != ""
    ensures Split(s)[|Split(s)| - 1] == "" <==> s == "" || s[|s| - 1] == '-'
  {
    if s != "" {
      CanonicalHasNoEmptyWord(s[..|s| - 1]);
    }
  }

  lemma {:induction false} NothingToFilter(words: seq<string>)
    requires forall k | 0 <= k < |words| :: words[k] != ""
    ensures NonEmpty(words) == words
  {
    if words != [] {
      NothingToFilter(words[..|words| - 1]);
    }
  }

  // ---- what a slug says about its source ----

  function Joined(t: CharTable, text: string): string {
    JoinWith('-', NonEmpty(Split(Kept(t, text))))
  }

  /** A separator has followed the last word. */
  function Pending(t: CharTable, text: string): bool {
    var words := Split(Kept(t, text));
    words[|words| - 1] == "" && NonEmpty(words) != []
  }

  lemma JoinedGrowsByLetter(t: CharTable, text: string, c: char)
    requires Lawful(t) && t.isLetterOrDigit(c)
    ensures Joined(t, text + [c]) == WithLetter(Joined(t, text), Pending(t, text), c) && !Pending(t, text + [c])
  {
    var kept := Kept(t, text);
    var sb := if Pending(t, text) then Joined(t, text) + "-" else Joined(t, text);
    assert (text + [c])[..|text|] == text;
    ScanCharacter(kept, c, sb, Pending(t, text));
  }

  lemma JoinedKeptBySeparator(t: CharTable, text: string, c: char)
    requires Lawful(t) && IsSeparator(c)
    ensures Joined(t, text + [c]) == Joined(t, text) && Pending(t, text + [c]) == (Joined(t, text) != "")
  {
    var words := Split(Kept(t, text));
    assert (text + [c])[..|text|] == text;
    assert (Kept(t, text) + [c])[..|Kept(t, text)|] == Kept(t, text);
    assert (words + [""])[..|words|] == words;
    assert NonEmpty(words + [""]) == NonEmpty(words);
    WordsJoinEmptyOnlyIfNone(words);
  }

  lemma JoinedKeptByOther(t: CharTable, text: string, c: char)
    requires !t.isLetterOrDigit(c) && !IsSeparator(c)
    ensures Joined(t, text + [c]) == Joined(t, text) && Pending(t, text + [c]) == Pending(t, text)
  {
    assert (text + [c])[..|text|] == text;
    assert Kept(t, text) + "" == Kept(t, text);
  }

  ghost predicate SeparatorBetween(text: string, from: int, to: int) {
    exists q :: from < q < to && 0 <= q < |text| && IsSeparator(text[q])
  }

  /** `at` are the places of the letters and digits of `text`, `out` where they stand in `slug`. */
  ghost predicate Aligned(t: CharTable, text: string, slug: string, at: seq<nat>, out: seq<nat>) {
    && |at| == |out|
    && (forall k | 0 <= k < |at| :: at[k] < |text| && t.isLetterOrDigit(text[at[k]]))
    && (forall k | 0 < k < |at| :: at[k - 1] < at[k])
    && (forall p | 0 <= p < |text| && t.isLetterOrDigit(text[p]) :: p in at)
    && (at == [] ==> slug == "")
    && (at != [] ==> out[0] == 0 && out[|at| - 1] == |slug| - 1)
    && (forall k | 0 <= k < |at| :: out[k] < |slug| && slug[out[k]] == text[at[k]])
    && (forall k | 0 < k < |at| :: Steps(text, slug, at[k - 1], at[k], out[k - 1], out[k]))
  }

  /** From one letter to the next: side by side, or with one hyphen between if a separator was between. */
  ghost predicate Steps(text: string, slug: string, a: int, b: int, p: int, q: int) {
    if SeparatorBetween(text, a, b) then q == p + 2 && 0 <= p + 1 < |slug| && slug[p + 1] == '-' else q == p + 1
  }

  ghost predicate PendingMeans(text: string, at: seq<nat>, pending: bool) {
    pending <==> at != [] && SeparatorBetween(text, at[|at| - 1], |text|)
  }

  lemma StepsKept(text: string, slug: string, longer: string, rest: string, a: int, b: int, p: int, q: int)
    requires Steps(text, slug, a, b, p, q) && slug <= longer && b <= |text|
    ensures Steps(text + rest, longer, a, b, p, q)
  {
    forall i | a < i < b && 0 <= i < |text|
      ensures (text + rest)[i] == text[i]
    {
    }
    if SeparatorBetween(text, a, b) {
      var i :| a < i < b && 0 <= i < |text| && IsSeparator(text[i]);
      assert IsSeparator((text + rest)[i]);
    }
    if SeparatorBetween(text + rest, a, b) {
      var i :| a < i < b && 0 <= i < |text + rest| && IsSeparator((text + rest)[i]);
      assert IsSeparator(text[i]);
    }
  }

  lemma PendingGrows(text: string, at: seq<nat>, pending: bool, c: char)
    requires PendingMeans(text, at, pending) && forall k | 0 <= k < |at| :: at[k] < |text|
    ensures PendingMeans(text + [c], at, pending || (at != [] && IsSeparator(c)))
  {
    var longer := text + [c];
    if at != [] {
      var last := at[|at| - 1];
      if SeparatorBetween(text, last, |text|) {
        var i :| last < i < |text| && 0 <= i < |text| && IsSeparator(text[i]);
        assert IsSeparator(longer[i]);
      }
      if IsSeparator(c) {
        assert IsSeparator(longer[|text|]);
      }
      if SeparatorBetween(longer, last, |longer|) {
        var i :| last < i < |longer| && 0 <= i < |longer| && IsSeparator(longer[i]);
        assert i < |text| ==> IsSeparator(text[i]);
      }
    }
  }

  lemma {:induction false} LettersAligned(t: CharTable, text: string) returns (at: seq<nat>, out: seq<nat>)
    requires Lawful(t)
    ensures Aligned(t, text, Joined(t, text), at, out) && PendingMeans(text, at, Pending(t, text))
  {
    if text == "" {
      at, out := [], [];
      assert NonEmpty([""]) == [];
    } else {
      var n := |text| - 1;
      var before, c := text[..n], text[n];
      assert text == before + [c];
      var a, o := LettersAligned(t, before);
      PendingGrows(before, a, Pending(t, before), c);
      if t.isLetterOrDigit(c) {
        JoinedGrowsByLetter(t, before, c);
        at, out := LetterAdded(t, before, c, Joined(t, before), Pending(t, before), a, o);
      } else {
        at, out := a, o;
        if IsSeparator(c) {
          JoinedKeptBySeparator(t, before, c);
        } else {
          JoinedKeptByOther(t, before, c);
        }
        NothingAdded(t, before, c, Joined(t, before), a, o);
      }
    }
  }

  lemma NothingAdded(t: CharTable, text: string, c: char, slug: string, at: seq<nat>, out: seq<nat>)
    requires Aligned(t, text, slug, at, out) && !t.isLetterOrDigit(c)
    ensures Aligned(t, text + [c], slug, at, out)
  {
    forall k | 0 < k < |at|
      ensures Steps(text + [c], slug, at[k - 1], at[k], out[k - 1], out[k])
    {
      StepsKept(text, slug, slug, [c], at[k - 1], at[k], out[k - 1], out[k]);
    }
  }

  function WithLetter(slug: string, pending: bool, c: char): string {
    (if pending then slug + "-" else slug) + [c]
  }

  /** The step to a letter just added. */
  lemma NewStep(text: string, c: char, slug: string, pending: bool, last: nat, place: nat)
    requires last < |text| && place == |slug| - 1 && (pending <==> SeparatorBetween(text, last, |text|))
    ensures Steps(text + [c], WithLetter(slug, pending, c), last, |text|, place, |WithLetter(slug, pending, c)| - 1)
  {
    SameBetween(text, c, last);
  }

  lemma LetterSteps(t: CharTable, text: string, c: char, slug: string, pending: bool, a: seq<nat>, o: seq<nat>, k: nat)
    requires Aligned(t, text, slug, a, o) && PendingMeans(text, a, pending) && 0 < k <= |a|
    ensures var longer := WithLetter(slug, pending, c);
            var at, out := a + [|text|], o + [|longer| - 1];
            Steps(text + [c], longer, at[k - 1], at[k], out[k - 1], out[k])
  {
    if k < |a| {
      StepsKept(text, slug, WithLetter(slug, pending, c), [c], a[k - 1], a[k], o[k - 1], o[k]);
    } else {
      NewStep(text, c, slug, pending, a[k - 1], o[k - 1]);
    }
  }

  lemma LetterPlaces(t: CharTable, text: string, c: char, slug: string, pending: bool, a: seq<nat>, o: seq<nat>, p: nat)
    requires Aligned(t, text, slug, a, o) && p < |text + [c]| && t.isLetterOrDigit((text + [c])[p])
    ensures p in a + [|text|]
  {
    if p < |text| {
      assert p in a;
    }
  }

  lemma LetterAdded(t: CharTable, text: string, c: char, slug: string, pending: bool, a: seq<nat>, o: seq<nat>)
    returns (at: seq<nat>, out: seq<nat>)
    requires t.isLetterOrDigit(c) && Aligned(t, text, slug, a, o) && PendingMeans(text, a, pending)
    ensures Aligned(t, text + [c], WithLetter(slug, pending, c), at, out)
    ensures PendingMeans(text + [c], at, false)
  {
    var longer := WithLetter(slug, pending, c);
    at, out := a + [|text|], o + [|longer| - 1];
    forall p | 0 <= p < |text + [c]| && t.isLetterOrDigit((text + [c])[p])
      ensures p in at
    {
      LetterPlaces(t, text, c, slug, pending, a, o, p);
    }
    forall k | 0 < k < |at|
      ensures Steps(text + [c], longer, at[k - 1], at[k], out[k - 1], out[k])
    {
      LetterSteps(t, text, c, slug, pending, a, o, k);
    }
    forall k | 0 <= k < |at|
      ensures out[k] < |longer| && longer[out[k]] == (text + [c])[at[k]]
    {
      LetterCopied(t, text, c, slug, pending, a, o, k);
    }
    assert !SeparatorBetween(text + [c], |text|, |text| + 1);
  }

  lemma LetterCopied(t: CharTable, text: string, c: char, slug: string, pending: bool, a: seq<nat>, o: seq<nat>, k: nat)
    requires Aligned(t, text, slug, a, o) && k <= |a|
    ensures var longer := WithLetter(slug, pending, c);
            var at, out := a + [|text|], o + [|longer| - 1];
            out[k] < |longer| && at[k] < |text + [c]| && longer[out[k]] == (text + [c])[at[k]]
  {
    if k < |a| {
      assert slug[o[k]] == text[a[k]];
    }
  }

  lemma SameBetween(text: string, c: char, from: int)
    ensures SeparatorBetween(text + [c], from, |text|) <==> SeparatorBetween(text, from, |text|)
  {
    forall i | 0 <= i < |text|
      ensures (text + [c])[i] == text[i]
    {
    }
    if SeparatorBetween(text, from, |text|) {
      var i :| from < i < |text| && 0 <= i < |text| && IsSeparator(text[i]);
      assert IsSeparator((text + [c])[i]);
    }
    if SeparatorBetween(text + [c], from, |text|) {
      var i :| from < i < |text| && 0 <= i < |text + [c]| && IsSeparator((text + [c])[i]);
      assert IsSeparator(text[i]);
    }
  }

  /** What trimming leaves. */
  lemma {:induction false} TrimIs(s: string, drop: char -> bool) returns (from: nat, to: nat)
    ensures from <= to <= |s| && Trim(s, drop) == s[from..to]
    ensures (forall i | 0 <= i < from :: drop(s[i])) && (forall i | to <= i < |s| :: drop(s[i]))
    ensures from < to ==> !drop(s[from]) && !drop(s[to - 1])
  {
    from := TrimStartIs(s, drop);
    var rest := s[from..];
    var n := TrimEndIs(rest, drop);
    to := from + n;
    assert rest[..n] == s[from..to];
    forall i | to <= i < |s|
      ensures drop(s[i])
    {
      assert rest[i - from] == s[i];
    }
  }

  lemma {:induction false} TrimStartIs(s: string, drop: char -> bool) returns (from: nat)
    ensures from <= |s| && TrimStart(s, drop) == s[from..]
    ensures (forall i | 0 <= i < from :: drop(s[i])) && (from < |s| ==> !drop(s[from]))
  {
    if s != "" && drop(s[0]) {
      var n := TrimStartIs(s[1..], drop);
      from := n + 1;
      assert s[1..][n..] == s[from..];
      assert forall i | 1 <= i < from :: s[i] == s[1..][i - 1];
    } else {
      from := 0;
    }
  }

  lemma {:induction false} TrimEndIs(s: string, drop: char -> bool) returns (to: nat)
    ensures to <= |s| && TrimEnd(s, drop) == s[..to]
    ensures (forall i | to <= i < |s| :: drop(s[i])) && (to > 0 ==> !drop(s[to - 1]))
  {
    if s != "" && drop(s[|s| - 1]) {
      to := TrimEndIs(s[..|s| - 1], drop);
      assert s[..|s| - 1][..to] == s[..to];
    } else {
      to := |s|;
    }
  }

  /** The characters at `a` and `b`, with no letter or digit between, stand at `p` and `q`: side by side, or
      around one hyphen exactly if a hyphen, underscore, blank, dot or slash was between them. */
  ghost predicate WordStep(text: string, slug: string, a: nat, b: nat, p: nat, q: nat)
    requires b <= |text|
  {
    var separated := exists i :: a < i < b && (text[i] == '-' || text[i] == '_' || text[i] == ' ' || text[i] == '.'
                                               || text[i] == '/');
    if separated then q == p + 2 && p + 1 < |slug| && slug[p + 1] == '-' else q == p + 1
  }

  lemma StepIsWordStep(text: string, slug: string, a: nat, b: nat, p: nat, q: nat)
    requires b <= |text| && Steps(text, slug, a, b, p, q)
    ensures WordStep(text, slug, a, b, p, q)
  {
    if i :| a < i < b && (text[i] == '-' || text[i] == '_' || text[i] == ' ' || text[i] == '.' || text[i] == '/') {
      assert IsSeparator(text[i]);
    }
    if SeparatorBetween(text, a, b) {
      var i :| a < i < b && 0 <= i < |text| && IsSeparator(text[i]);
      assert text[i] == '-' || text[i] == '_' || text[i] == ' ' || text[i] == '.' || text[i] == '/';
    }
  }

  /** The letters and digits of a text are, in order, those of its slug; between two that follow each other
      stands a hyphen exactly if a separator stood between them; and the slug has nothing else. */
  ghost predicate SameLetters(t: CharTable, text: string, slug: string, at: seq<nat>, out: seq<nat>) {
    && |at| == |out|
    && (forall k | 0 <= k < |at| :: at[k] < |text| && out[k] < |slug| && slug[out[k]] == text[at[k]])
    && (forall p | 0 <= p < |text| :: p in at <==> t.isLetterOrDigit(text[p]))
    && (forall k | 0 < k < |at| ::
          at[k - 1] < at[k] && WordStep(text, slug, at[k - 1], at[k], out[k - 1], out[k]))
    && (if at == [] then slug == "" else out[0] == 0 && out[|at| - 1] == |slug| - 1)
  }

  lemma LettersOfText(t: CharTable, text: string) returns (at: seq<nat>, out: seq<nat>)
    requires Lawful(t)
    ensures SameLetters(t, text, Joined(t, text), at, out)
  {
    at, out := LettersAligned(t, text);
    AlignedIsSame(t, text, Joined(t, text), at, out);
  }

  lemma AlignedIsSame(t: CharTable, text: string, slug: string, at: seq<nat>, out: seq<nat>)
    requires Aligned(t, text, slug, at, out)
    ensures SameLetters(t, text, slug, at, out)
  {
    forall k | 0 < k < |at|
      ensures WordStep(text, slug, at[k - 1], at[k], out[k - 1], out[k])
    {
      StepIsWordStep(text, slug, at[k - 1], at[k], out[k - 1], out[k]);
    }
  }

  /** For every input: trimmed of blanks and lower-cased, it has the slug's letters and digits, joined and
      parted as `SameLetters` says. */
  lemma SlugFromLetters(t: CharTable, raw: string)
    returns (text: string, from: nat, to: nat, at: seq<nat>, out: seq<nat>)
    requires Lawful(t)
    ensures from <= to <= |raw| && |text| == to - from
    ensures (forall i | 0 <= i < from :: t.isSpace(raw[i])) && (forall i | to <= i < |raw| :: t.isSpace(raw[i]))
    ensures from < to ==> !t.isSpace(raw[from]) && !t.isSpace(raw[to - 1])
    ensures forall i | 0 <= i < |text| :: text[i] == t.toLower(raw[from + i])
    ensures SameLetters(t, text, Slug(t, raw), at, out)
  {
    from, to := TrimIs(raw, t.isSpace);
    text := Lower(t, Trim(raw, t.isSpace));
    at, out := LettersOfText(t, text);
  }
}
