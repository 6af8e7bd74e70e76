/**
 * Text utilities of the chatbot: Romanian diacritic stripping and tokenisation
 * (app/nlp_utils.py), together with the Python `str` operations the reply chain
 * builds on (lower, strip, split, `in`, startswith, join).
 *
 * Strings are sequences of Unicode scalar values. Lower-casing covers ASCII,
 * Latin-1 and the Romanian capitals; whitespace is Python's `str.isspace` set.
 */
module Text {
  import opened Wrappers

  // ---------------------------------------------------------------------
  // Character classes
  // ---------------------------------------------------------------------

  /** The fourteen Romanian letters that remove_diacritics rewrites
      (breve, circumflex, comma-below and cedilla forms, both cases). */
  predicate IsDiacritic(c: char) {
    c in {'\U{0103}', '\U{00E2}', '\U{00EE}', '\U{0219}', '\U{015F}', '\U{021B}', '\U{0163}',
          '\U{0102}', '\U{00C2}', '\U{00CE}', '\U{0218}', '\U{015E}', '\U{021A}', '\U{0162}'}
  }

  /** Characters Python's `str.isspace` accepts: what `split()` and `strip()` cut on. */
  predicate IsSpace(c: char) {
    || c == ' ' || ('\t' <= c <= '\r') || ('\U{1C}' <= c <= '\U{1F}')
    || c == '\U{85}' || c == '\U{A0}' || c == '\U{1680}' || ('\U{2000}' <= c <= '\U{200A}')
    || c == '\U{2028}' || c == '\U{2029}' || c == '\U{202F}' || c == '\U{205F}' || c == '\U{3000}'
  }

  /** The tokenizer's allowlist `[a-z0-9ăâîșşțţ]`. */
  predicate IsAllowed(c: char) {
    || ('a' <= c <= 'z') || ('0' <= c <= '9')
    || c in {'\U{0103}', '\U{00E2}', '\U{00EE}', '\U{0219}', '\U{015F}', '\U{021B}', '\U{0163}'}
  }

  // ---------------------------------------------------------------------
  // remove_diacritics
  // ---------------------------------------------------------------------

  /** The replacement dictionary of remove_diacritics, in its insertion order. */
  const Replacements: seq<(char, char)> := [
    ('\U{0103}', 'a'), ('\U{00E2}', 'a'), ('\U{00EE}', 'i'),
    ('\U{0219}', 's'), ('\U{015F}', 's'), ('\U{021B}', 't'), ('\U{0163}', 't'),
    ('\U{0102}', 'A'), ('\U{00C2}', 'A'), ('\U{00CE}', 'I'),
    ('\U{0218}', 'S'), ('\U{015E}', 'S'), ('\U{021A}', 'T'), ('\U{0162}', 'T')
  ]

  /** The base letter of each Romanian diacritic, written as a table;
      every other character stands for itself. */
  function BaseLetter(c: char): (b: char)
    ensures IsDiacritic(c) ==> !IsDiacritic(b) && b in "aAiIsStT"
    ensures !IsDiacritic(c) ==> b == c
  {
    if c == '\U{0103}' || c == '\U{00E2}' then 'a'
    else if c == '\U{00EE}' then 'i'
    else if c == '\U{0219}' || c == '\U{015F}' then 's'
    else if c == '\U{021B}' || c == '\U{0163}' then 't'
    else if c == '\U{0102}' || c == '\U{00C2}' then 'A'
    else if c == '\U{00CE}' then 'I'
    else if c == '\U{0218}' || c == '\U{015E}' then 'S'
    else if c == '\U{021A}' || c == '\U{0162}' then 'T'
    else c
  }

  /** `text` with every diacritic replaced by its base letter. */
  function WithoutDiacritics(text: string): string {
    seq(|text|, j requires 0 <= j < |text| => BaseLetter(text[j]))
  }

  /** What one `str.replace(k, v)` does to one character, for a one-character `k`. */
  function ReplaceChar(c: char, k: char, v: char): char {
    if c == k then v else c
  }

  /** Dictionary lookup in a list of pairs: the value of the first pair whose key is `c`,
      or `c` itself when no key matches. */
  function Lookup(rs: seq<(char, char)>, c: char): char {
    if rs == [] then c else if rs[0].0 == c then rs[0].1 else Lookup(rs[1..], c)
  }

  /** One more `replace(k, v)` after the replacements `rs` acts as a lookup in `rs + [(k, v)]`,
      provided no value already in `rs` is the new key. */
  lemma {:induction false} LookupSnoc(rs: seq<(char, char)>, k: char, v: char, c: char)
    requires forall p :: p in rs ==> p.1 != k
    ensures Lookup(rs + [(k, v)], c) == ReplaceChar(Lookup(rs, c), k, v)
  {
    if rs != [] {
      assert (rs + [(k, v)])[1..] == rs[1..] + [(k, v)];
      if rs[0].0 != c {
        LookupSnoc(rs[1..], k, v, c);
      }
    }
  }

  /** A list of pairs drawn from the BaseLetter table that has a pair for every
      diacritic looks characters up exactly as BaseLetter does. */
  lemma {:induction false} LookupOfTable(rs: seq<(char, char)>, c: char)
    requires forall p :: p in rs ==> BaseLetter(p.0) == p.1
    requires IsDiacritic(c) ==> (c, BaseLetter(c)) in rs
    ensures Lookup(rs, c) == BaseLetter(c)
  {
    if rs != [] && rs[0].0 != c {
      assert forall p :: p in rs[1..] ==> p in rs;
      assert IsDiacritic(c) ==> (c, BaseLetter(c)) in rs[1..];
      LookupOfTable(rs[1..], c);
    }
  }

  lemma ReplacementsFromTable()
    ensures forall p :: p in Replacements ==> BaseLetter(p.0) == p.1
  {
    forall i | 0 <= i < |Replacements| ensures BaseLetter(Replacements[i].0) == Replacements[i].1 {
    }
  }

  lemma ReplacementsCoverDiacritics(c: char)
    ensures IsDiacritic(c) ==> (c, BaseLetter(c)) in Replacements
  {
  }

  /** The dictionary of remove_diacritics and the table BaseLetter agree on every character. */
  lemma ReplacementsAreBaseLetters(c: char)
    ensures Lookup(Replacements, c) == BaseLetter(c)
  {
    ReplacementsFromTable();
    ReplacementsCoverDiacritics(c);
    LookupOfTable(Replacements, c);
  }

  /** remove_diacritics: applies `text.replace(k, v)` for each dictionary entry in turn.
      Each of the fourteen diacritics becomes its base letter, every other character
      is kept, and the length does not change. */
  method RemoveDiacritics(text: string) returns (r: string)
    ensures |r| == |text|
    ensures forall j :: 0 <= j < |text| ==> r[j] == BaseLetter(text[j])
    ensures r == WithoutDiacritics(text)
  {
    r := text;
    var i := 0;
    while i < |Replacements|
      invariant 0 <= i <= |Replacements|
      invariant |r| == |text|
      invariant forall j :: 0 <= j < |r| ==> r[j] == Lookup(Replacements[..i], text[j])
    {
      var (k, v) := Replacements[i];
      forall j | 0 <= j < |r|
        ensures Lookup(Replacements[..i + 1], text[j]) == ReplaceChar(r[j], k, v)
      {
        assert Replacements[..i + 1] == Replacements[..i] + [(k, v)];
        LookupSnoc(Replacements[..i], k, v, text[j]);
      }
      r := seq(|r|, j requires 0 <= j < |r| => ReplaceChar(r[j], k, v));
      i := i + 1;
    }
    assert Replacements[..i] == Replacements;
    forall j | 0 <= j < |text| ensures r[j] == BaseLetter(text[j]) {
      ReplacementsAreBaseLetters(text[j]);
    }
  }

  /** The output of remove_diacritics contains none of the fourteen mapped characters. */
  lemma WithoutDiacriticsIsClean(text: string)
    ensures forall j :: 0 <= j < |WithoutDiacritics(text)| ==> !IsDiacritic(WithoutDiacritics(text)[j])
  {
  }

  /** remove_diacritics is idempotent. */
  lemma WithoutDiacriticsIdempotent(text: string)
    ensures WithoutDiacritics(WithoutDiacritics(text)) == WithoutDiacritics(text)
  {
  }

  // ---------------------------------------------------------------------
  // str.lower
  // ---------------------------------------------------------------------

  /** Python's lower-casing on ASCII, Latin-1 and the Romanian capitals. */
  function LowerChar(c: char): char {
    if 'A' <= c <= 'Z' || ('\U{C0}' <= c <= '\U{DE}' && c != '\U{D7}') then (c as int + 32) as char
    else if c == '\U{0102}' then '\U{0103}'
    else if c == '\U{0218}' then '\U{0219}'
    else if c == '\U{015E}' then '\U{015F}'
    else if c == '\U{021A}' then '\U{021B}'
    else if c == '\U{0162}' then '\U{0163}'
    else c
  }

  function Lower(s: string): string {
    seq(|s|, j requires 0 <= j < |s| => LowerChar(s[j]))
  }

  // ---------------------------------------------------------------------
  // str.strip, str.split, `in`, startswith, split(sep, 1), join
  // ---------------------------------------------------------------------

  /** `s` without its leading whitespace. */
  function TrimLeft(s: string): (r: string)
    ensures |r| <= |s| && r == s[|s| - |r|..]
    ensures forall j :: 0 <= j < |s| - |r| ==> IsSpace(s[j])
    ensures r != [] ==> !IsSpace(r[0])
  {
    if s != [] && IsSpace(s[0]) then TrimLeft(s[1..]) else s
  }

  /** `s` without its trailing whitespace. */
  function TrimRight(s: string): (r: string)
    ensures |r| <= |s| && r == s[..|r|]
    ensures forall j :: |r| <= j < |s| ==> IsSpace(s[j])
    ensures r != [] ==> !IsSpace(r[|r| - 1])
  {
    if s != [] && IsSpace(s[|s| - 1]) then TrimRight(s[..|s| - 1]) else s
  }

  /** A text that neither starts nor ends with whitespace is already stripped. */
  lemma StripStripped(s: string)
    requires s != [] && !IsSpace(s[0]) && !IsSpace(s[|s| - 1])
    ensures Strip(s) == s
  {
  }

  /** Python's `s.strip()`: the longest slice of `s` that starts and ends with a
      non-whitespace character; empty exactly when `s` is all whitespace. */
  function Strip(s: string): (r: string)
    ensures |r| <= |s|
    ensures r == [] <==> forall j :: 0 <= j < |s| ==> IsSpace(s[j])
    ensures r != [] ==> !IsSpace(r[0]) && !IsSpace(r[|r| - 1])
  {
    var left := TrimLeft(s);
    var r := TrimRight(left);
    assert r != [] ==> r[0] == s[|s| - |left|];
    assert left != [] ==> !IsSpace(left[0]) && r != [];
    r
  }

  /** Python's `s.split()` started with `word` already collected: maximal runs of
      non-whitespace characters, in order. */
  function SplitFrom(s: string, word: string): (ws: seq<string>)
    requires forall c :: c in word ==> !IsSpace(c)
    ensures forall w :: w in ws ==> w != [] && forall c :: c in w ==> !IsSpace(c) && (c in word || c in s)
    ensures Concat(ws) == word + NonSpace(s)
    decreases |s|
  {
    if s == [] then
      var ws := if word == [] then [] else [word];
      assert Concat(ws) == word by {
        if word != [] { assert Concat([word]) == word + Concat([]); }
      }
      ws
    else if IsSpace(s[0]) then
      var first := if word == [] then [] else [word];
      var rest := SplitFrom(s[1..], []);
      assert Concat(first) == word by {
        if word != [] { assert Concat([word]) == word + Concat([]); }
      }
      ConcatAppend(first, rest);
      first + rest
    else
      SplitFrom(s[1..], word + [s[0]])
  }

  /** Python's `s.split()` with no separator: the words, concatenated, are exactly the
      non-whitespace characters of `s`, in order. */
  function Split(s: string): (ws: seq<string>)
    ensures forall w :: w in ws ==> w != [] && forall c :: c in w ==> !IsSpace(c) && c in s
    ensures Concat(ws) == NonSpace(s)
  {
    SplitFrom(s, [])
  }

  /** The characters of `s` that are not whitespace, in order. */
  function NonSpace(s: string): string {
    if s == [] then [] else (if IsSpace(s[0]) then [] else [s[0]]) + NonSpace(s[1..])
  }

  /** A run of non-whitespace characters joins the word being collected. */
  lemma {:induction false} SplitFromWord(w: string, t: string, word: string)
    requires forall c :: c in word ==> !IsSpace(c)
    requires forall c :: c in w ==> !IsSpace(c)
    ensures SplitFrom(w + t, word) == SplitFrom(t, word + w)
    decreases |w|
  {
    if w == [] {
      assert w + t == t && word + w == word;
    } else {
      assert (w + t)[0] == w[0] && (w + t)[1..] == w[1..] + t;
      assert word + w == (word + [w[0]]) + w[1..];
      SplitFromWord(w[1..], t, word + [w[0]]);
    }
  }

  /** `split()` undoes `" ".join(words)` when every word is non-empty and holds no whitespace:
      the words are recovered with their boundaries. */
  lemma {:induction false} SplitJoin(ws: seq<string>)
    requires forall i :: 0 <= i < |ws| ==> ws[i] != [] && forall c :: c in ws[i] ==> !IsSpace(c)
    ensures Split(Join(" ", ws)) == ws
  {
    if |ws| == 1 {
      SplitFromWord(ws[0], [], []);
      assert ws[0] + [] == ws[0] && [] + ws[0] == ws[0];
    } else if |ws| > 1 {
      var tail := Join(" ", ws[1..]);
      assert Join(" ", ws) == ws[0] + (" " + tail);
      SplitFromWord(ws[0], " " + tail, []);
      assert [] + ws[0] == ws[0];
      assert (" " + tail)[0] == ' ' && (" " + tail)[1..] == tail;
      SplitJoin(ws[1..]);
      assert ws == [ws[0]] + ws[1..];
    }
  }

  /** `sub` occurs in `s` at index `i`. */
  predicate OccursAt(s: string, sub: string, i: int) {
    0 <= i && i + |sub| <= |s| && s[i..i + |sub|] == sub
  }

  /** Python's `sub in s`. */
  predicate Contains(s: string, sub: string) {
    exists i :: 0 <= i <= |s| && OccursAt(s, sub, i)
  }

  /** Python's `s.startswith(prefix)`. */
  predicate StartsWith(s: string, prefix: string) {
    |prefix| <= |s| && s[..|prefix|] == prefix
  }

  /** The first index at or after `i` where `sep` occurs in `s`. */
  function FindFrom(s: string, sep: string, i: nat): (r: Option<nat>)
    requires i <= |s|
    ensures r.Some? ==> i <= r.value && OccursAt(s, sep, r.value)
                        && forall j :: i <= j < r.value ==> !OccursAt(s, sep, j)
    ensures r.None? ==> forall j :: i <= j <= |s| ==> !OccursAt(s, sep, j)
    decreases |s| - i
  {
    if OccursAt(s, sep, i) then Some(i)
    else if i == |s| then None
    else FindFrom(s, sep, i + 1)
  }

  /** Python's `s.split(sep, 1)[-1]`: the text after the first occurrence of `sep`,
      or the whole of `s` when `sep` does not occur. */
  function After(s: string, sep: string): (r: string)
    requires sep != []
  {
    match FindFrom(s, sep, 0)
    case Some(i) => s[i + |sep|..]
    case None => s
  }

  /** `After` cuts at the first occurrence of the separator. */
  lemma AfterFirst(s: string, sep: string, k: nat)
    requires sep != [] && OccursAt(s, sep, k)
    requires forall j :: 0 <= j < k ==> !OccursAt(s, sep, j)
    ensures After(s, sep) == s[k + |sep|..]
  {
  }

  /** Python's `sep.join(parts)`. */
  function Join(sep: string, parts: seq<string>): string {
    if parts == [] then []
    else if |parts| == 1 then parts[0]
    else parts[0] + sep + Join(sep, parts[1..])
  }

  // ---------------------------------------------------------------------
  // tokenize
  // ---------------------------------------------------------------------

  /** `re.sub(r"[^a-z0-9ăâîșşțţ]", " ", s)`. */
  function Mask(s: string): string {
    seq(|s|, j requires 0 <= j < |s| => if IsAllowed(s[j]) then s[j] else ' ')
  }

  /** tokenize: lower-case, blank out every character outside the allowlist, split on whitespace. */
  function Tokenize(text: string): (tokens: seq<string>)
    ensures forall t :: t in tokens ==> t != [] && forall c :: c in t ==> IsAllowed(c)
  {
    var masked := Mask(Lower(text));
    assert forall c :: c in masked ==> IsAllowed(c) || c == ' ';
    Split(masked)
  }

  /** The characters of `s` that are on the allowlist, in order. */
  function AllowedChars(s: string): string {
    if s == [] then [] else (if IsAllowed(s[0]) then [s[0]] else []) + AllowedChars(s[1..])
  }

  /** All tokens concatenated. */
  function Concat(ws: seq<string>): string {
    if ws == [] then [] else ws[0] + Concat(ws[1..])
  }

  lemma {:induction false} ConcatAppend(a: seq<string>, b: seq<string>)
    ensures Concat(a + b) == Concat(a) + Concat(b)
  {
    if a == [] {
      assert a + b == b;
    } else {
      assert (a + b)[0] == a[0];
      assert (a + b)[1..] == a[1..] + b;
      ConcatAppend(a[1..], b);
    }
  }

  /** In a masked text the non-whitespace characters are the allowlisted ones. */
  lemma {:induction false} NonSpaceIsAllowed(s: string)
    requires forall j :: 0 <= j < |s| ==> IsAllowed(s[j]) || s[j] == ' '
    ensures NonSpace(s) == AllowedChars(s)
  {
    if s != [] {
      assert IsSpace(s[0]) <==> !IsAllowed(s[0]);
      NonSpaceIsAllowed(s[1..]);
    }
  }

  lemma {:induction false} AllowedCharsOfMask(s: string)
    ensures AllowedChars(Mask(s)) == AllowedChars(s)
  {
    if s != [] {
      assert Mask(s)[1..] == Mask(s[1..]);
      AllowedCharsOfMask(s[1..]);
    }
  }

  /** The tokens of a text, concatenated, are exactly the allowlisted characters of
      its lower-cased form, in order: tokenize drops separators and nothing else. */
  lemma TokenizeKeepsAllowed(text: string)
    ensures Concat(Tokenize(text)) == AllowedChars(Lower(text))
  {
    NonSpaceIsAllowed(Mask(Lower(text)));
    AllowedCharsOfMask(Lower(text));
  }

  /** Splitting a text made of whitespace only gives no words. */
  lemma {:induction false} SplitBlank(s: string)
    requires forall j :: 0 <= j < |s| ==> IsSpace(s[j])
    ensures SplitFrom(s, []) == []
  {
    if s != [] {
      SplitBlank(s[1..]);
    }
  }

  /** A text with no allowlisted character (only punctuation, spaces, ...) has no tokens. */
  lemma TokenizeNothingAllowed(text: string)
    requires forall j :: 0 <= j < |text| ==> !IsAllowed(LowerChar(text[j]))
    ensures Tokenize(text) == []
  {
    SplitBlank(Mask(Lower(text)));
  }
}
