/** The pieces of Python's `str` behaviour the compilation code relies on:
    `isspace`, `strip`, `split`, `join`, `in`, `replace`, `lower`/`upper`,
    `int(...)` and `str(...)` on integers. */
module Text {
  import opened Wrappers

  // ---------------------------------------------------------------------------
  // Character classes
  // ---------------------------------------------------------------------------

  /** Python's `str.isspace` for one character: the ASCII separators and
      control characters 0x09-0x0D and 0x1C-0x1F, the space, and the
      Unicode space and line/paragraph separators. */
  predicate IsSpace(c: char) {
    c == ' ' || ('\t' <= c <= '\r') || ('\U{1C}' <= c <= '\U{1F}')
    || c == '\U{85}' || c == '\U{A0}' || c == '\U{1680}'
    || ('\U{2000}' <= c <= '\U{200A}') || c == '\U{2028}' || c == '\U{2029}'
    || c == '\U{202F}' || c == '\U{205F}' || c == '\U{3000}'
  }

  predicate IsDigit(c: char) { '0' <= c <= '9' }

  predicate AllDigits(s: string) { forall i :: 0 <= i < |s| ==> IsDigit(s[i]) }

  predicate NoSpace(s: string) { forall i :: 0 <= i < |s| ==> !IsSpace(s[i]) }

  predicate Lacks(s: string, c: char) { forall i :: 0 <= i < |s| ==> s[i] != c }

  // ---------------------------------------------------------------------------
  // Prefixes, suffixes and substrings
  // ---------------------------------------------------------------------------

  predicate StartsWith(s: string, p: string) { |p| <= |s| && s[..|p|] == p }

  predicate EndsWith(s: string, p: string) { |p| <= |s| && s[|s| - |p|..] == p }

  /** `sub` occurs in `s` starting at index `i`. */
  predicate OccursAt(s: string, sub: string, i: int) {
    0 <= i && i + |sub| <= |s| && s[i..i + |sub|] == sub
  }

  /** Index of the first occurrence of `sub` in `s` at or after `from`. */
  function FindFrom(s: string, sub: string, from: nat): (r: Option<nat>)
    decreases |s| - from
    ensures r.Some? ==> from <= r.value && OccursAt(s, sub, r.value)
    ensures r.Some? ==> forall j :: from <= j < r.value ==> !OccursAt(s, sub, j)
    ensures r.None? ==> forall j :: from <= j ==> !OccursAt(s, sub, j)
  {
    if from + |sub| > |s| then None
    else if s[from..from + |sub|] == sub then Some(from)
    else FindFrom(s, sub, from + 1)
  }

  /** Python's `sub in s`. */
  predicate Contains(s: string, sub: string) { FindFrom(s, sub, 0).Some? }

  lemma ContainsIff(s: string, sub: string)
    ensures Contains(s, sub) <==> exists i :: OccursAt(s, sub, i)
  {
  }

  // ---------------------------------------------------------------------------
  // Whitespace: strip, split() and " ".join(...)
  // ---------------------------------------------------------------------------

  function LStrip(s: string): (r: string)
    ensures |r| <= |s| && r == s[|s| - |r|..]
    ensures r == [] || !IsSpace(r[0])
    ensures forall i :: 0 <= i < |s| - |r| ==> IsSpace(s[i])
  {
    if s == [] || !IsSpace(s[0]) then s else LStrip(s[1..])
  }

  function RStrip(s: string): (r: string)
    ensures |r| <= |s| && r == s[..|r|]
    ensures r == [] || !IsSpace(r[|r| - 1])
    ensures forall i :: |r| <= i < |s| ==> IsSpace(s[i])
  {
    if s == [] || !IsSpace(s[|s| - 1]) then s else RStrip(s[..|s| - 1])
  }

  /** Python's `str.strip()` with no argument. */
  function Strip(s: string): (r: string)
  {
    RStrip(LStrip(s))
  }

  /** `Strip` removes exactly the whitespace at both ends and nothing else. */
  lemma StripSpec(s: string)
    ensures exists i, j :: (0 <= i <= j <= |s| && Strip(s) == s[i..j]
      && (forall k :: 0 <= k < i ==> IsSpace(s[k]))
      && (forall k :: j <= k < |s| ==> IsSpace(s[k])))
    ensures Strip(s) == [] || (!IsSpace(Strip(s)[0]) && !IsSpace(Strip(s)[|Strip(s)| - 1]))
  {
    var l := LStrip(s);
    var i := |s| - |l|;
    var r := RStrip(l);
    var j := i + |r|;
    assert s[i..j] == l[..|r|];
    if r != [] {
      assert r[0] == l[0];
    }
  }

  /** A string that neither starts nor ends with whitespace is its own strip. */
  lemma StripNoop(s: string)
    requires s == [] || (!IsSpace(s[0]) && !IsSpace(s[|s| - 1]))
    ensures Strip(s) == s
  {
  }

  lemma StripIdempotent(s: string)
    ensures Strip(Strip(s)) == Strip(s)
  {
    StripSpec(s);
    StripNoop(Strip(s));
  }

  /** Length of the run of non-space characters at the front of `s`. */
  function WordLength(s: string): (n: nat)
    ensures n <= |s|
    ensures forall i :: 0 <= i < n ==> !IsSpace(s[i])
    ensures n < |s| ==> IsSpace(s[n])
  {
    if s == [] || IsSpace(s[0]) then 0 else 1 + WordLength(s[1..])
  }

  /** Python's `str.split()` with no argument: the maximal runs of
      non-whitespace characters, in order. */
  function Words(s: string): (ws: seq<string>)
    decreases |s|
    ensures forall k :: 0 <= k < |ws| ==> |ws[k]| > 0 && NoSpace(ws[k])
  {
    if s == [] then []
    else if IsSpace(s[0]) then Words(s[1..])
    else
      var n := WordLength(s);
      [s[..n]] + Words(s[n..])
  }

  /** `sep.join(parts)`. */
  function Join(parts: seq<string>, sep: string): (r: string)
  {
    if parts == [] then ""
    else if |parts| == 1 then parts[0]
    else parts[0] + sep + Join(parts[1..], sep)
  }

  /** `" ".join(s.split())`: runs of whitespace collapsed to one space,
      none at either end. */
  function CollapseSpaces(s: string): string
  {
    Join(Words(s), " ")
  }

  /** A string in the form `CollapseSpaces` produces. */
  predicate Collapsed(s: string) {
    && (forall i :: 0 <= i < |s| ==> IsSpace(s[i]) ==> s[i] == ' ')
    && (s != [] ==> s[0] != ' ' && s[|s| - 1] != ' ')
    && (forall i :: 0 <= i < |s| - 1 ==> !(s[i] == ' ' && s[i + 1] == ' '))
  }

  lemma {:induction false} JoinWordsCollapsed(ws: seq<string>)
    requires forall k :: 0 <= k < |ws| ==> |ws[k]| > 0 && NoSpace(ws[k])
    ensures Collapsed(Join(ws, " "))
    ensures Join(ws, " ") != [] ==> !IsSpace(Join(ws, " ")[0])
    ensures Join(ws, " ") != [] ==> !IsSpace(Join(ws, " ")[|Join(ws, " ")| - 1])
  {
    if |ws| > 1 {
      JoinWordsCollapsed(ws[1..]);
      var rest := Join(ws[1..], " ");
      var r := ws[0] + " " + rest;
      assert Join(ws, " ") == r;
      assert rest != [] by { assert |ws[1]| > 0; JoinHeadLength(ws[1..]); }
      forall i | 0 <= i < |r| - 1 ensures !(r[i] == ' ' && r[i + 1] == ' ') {
        if i < |ws[0]| - 1 {
          assert r[i] == ws[0][i];
        } else if i == |ws[0]| - 1 {
          assert r[i] == ws[0][i];
        } else if i == |ws[0]| {
          assert r[i + 1] == rest[0];
        } else {
          assert r[i] == rest[i - |ws[0]| - 1] && r[i + 1] == rest[i - |ws[0]|];
        }
      }
      forall i | 0 <= i < |r| ensures IsSpace(r[i]) ==> r[i] == ' ' {
        if i < |ws[0]| {
          assert r[i] == ws[0][i];
        } else if i > |ws[0]| {
          assert r[i] == rest[i - |ws[0]| - 1];
        }
      }
      assert r[0] == ws[0][0];
      assert r[|r| - 1] == rest[|rest| - 1];
    }
  }

  lemma {:induction false} JoinHeadLength(ws: seq<string>)
    requires |ws| > 0
    ensures |Join(ws, " ")| >= |ws[0]|
  {
    if |ws| > 1 {
      JoinHeadLength(ws[1..]);
    }
  }

  lemma {:induction false} WordLengthOfJoin(w: string, rest: string)
    requires NoSpace(w)
    requires rest == [] || IsSpace(rest[0])
    ensures WordLength(w + rest) == |w|
  {
    if w != [] {
      assert (w + rest)[1..] == w[1..] + rest;
      WordLengthOfJoin(w[1..], rest);
    }
  }

  /** Splitting a `" "`-join of space-free, non-empty words gives the words back. */
  lemma {:induction false} WordsOfJoin(ws: seq<string>)
    requires forall k :: 0 <= k < |ws| ==> |ws[k]| > 0 && NoSpace(ws[k])
    ensures Words(Join(ws, " ")) == ws
  {
    if |ws| == 1 {
      WordLengthOfJoin(ws[0], "");
      assert ws[0] + "" == ws[0];
      assert ws[0][|ws[0]|..] == [];
      assert ws[0][..|ws[0]|] == ws[0];
    } else if |ws| > 1 {
      var rest := Join(ws[1..], " ");
      var s := ws[0] + " " + rest;
      WordLengthOfJoin(ws[0], " " + rest);
      assert ws[0] + (" " + rest) == s;
      assert s[..|ws[0]|] == ws[0];
      assert s[|ws[0]|..] == " " + rest;
      assert (" " + rest)[1..] == rest;
      WordsOfJoin(ws[1..]);
      assert [ws[0]] + ws[1..] == ws;
    }
  }

  /** `CollapseSpaces` normalises, and normalising again changes nothing. */
  lemma CollapseSpacesSpec(s: string)
    ensures Collapsed(CollapseSpaces(s))
    ensures CollapseSpaces(CollapseSpaces(s)) == CollapseSpaces(s)
  {
    JoinWordsCollapsed(Words(s));
    WordsOfJoin(Words(s));
  }

  /** Every character `Words` yields is a non-space character of the input. */
  lemma {:induction false} WordsChars(s: string, c: char)
    requires exists k, i :: 0 <= k < |Words(s)| && 0 <= i < |Words(s)[k]| && Words(s)[k][i] == c
    ensures c in s && !IsSpace(c)
    decreases |s|
  {
    var k, i :| 0 <= k < |Words(s)| && 0 <= i < |Words(s)[k]| && Words(s)[k][i] == c;
    if IsSpace(s[0]) {
      WordsChars(s[1..], c);
    } else {
      var n := WordLength(s);
      if k == 0 {
        assert s[..n][i] == s[i];
      } else {
        assert Words(s[n..])[k - 1][i] == c;
        WordsChars(s[n..], c);
      }
    }
  }

  lemma {:induction false} JoinChars(ws: seq<string>, sep: string, i: nat)
    requires i < |Join(ws, sep)|
    ensures Join(ws, sep)[i] in sep
      || exists k, j :: 0 <= k < |ws| && 0 <= j < |ws[k]| && ws[k][j] == Join(ws, sep)[i]
  {
    if |ws| == 1 {
      assert ws[0][i] == Join(ws, sep)[i];
    } else if |ws| > 1 {
      var rest := Join(ws[1..], sep);
      var r := ws[0] + sep + rest;
      assert Join(ws, sep) == r;
      if i < |ws[0]| {
        assert ws[0][i] == r[i];
      } else if i < |ws[0]| + |sep| {
        assert r[i] == sep[i - |ws[0]|];
      } else {
        assert r[i] == rest[i - |ws[0]| - |sep|];
        JoinChars(ws[1..], sep, i - |ws[0]| - |sep|);
        if !(r[i] in sep) {
          var k, j :| 0 <= k < |ws[1..]| && 0 <= j < |ws[1..][k]| && ws[1..][k][j] == r[i];
          assert ws[k + 1][j] == r[i];
        }
      }
    }
  }

  /** Every character of `CollapseSpaces(s)` is a space or a character of `s`. */
  lemma CollapseSpacesChars(s: string, i: nat)
    requires i < |CollapseSpaces(s)|
    ensures CollapseSpaces(s)[i] == ' ' || CollapseSpaces(s)[i] in s
  {
    JoinChars(Words(s), " ", i);
    var c := CollapseSpaces(s)[i];
    if c != ' ' {
      WordsChars(s, c);
    }
  }

  // ---------------------------------------------------------------------------
  // Splitting on one separator character
  // ---------------------------------------------------------------------------

  /** Python's `s.split(c)` for a one-character separator: the fields between
      occurrences of `c`; there is always one more field than separators. */
  function Split(s: string, c: char): (r: seq<string>)
    ensures |r| >= 1
  {
    if s == [] then [""]
    else
      var rest := Split(s[1..], c);
      if s[0] == c then [""] + rest
      else [[s[0]] + rest[0]] + rest[1..]
  }

  /** No field contains the separator. */
  lemma {:induction false} SplitFields(s: string, c: char)
    ensures forall k :: 0 <= k < |Split(s, c)| ==> Lacks(Split(s, c)[k], c)
  {
    if s != [] {
      SplitFields(s[1..], c);
      var rest := Split(s[1..], c);
      if s[0] != c {
        var r := Split(s, c);
        assert r[0] == [s[0]] + rest[0];
        forall k | 0 < k < |r| ensures Lacks(r[k], c) {
          assert r[k] == rest[k];
        }
      }
    }
  }

  /** Joining fields that hold no separator and splitting again gives the fields back. */
  lemma {:induction false} SplitJoin(parts: seq<string>, c: char)
    requires |parts| >= 1
    requires forall k :: 0 <= k < |parts| ==> Lacks(parts[k], c)
    ensures Split(Join(parts, [c]), c) == parts
  {
    if |parts| == 1 {
      SplitNoSep(parts[0], c);
    } else {
      SplitJoin(parts[1..], c);
      SplitPrefix(parts[0], [c] + Join(parts[1..], [c]), c);
      assert parts[0] + [c] + Join(parts[1..], [c]) == parts[0] + ([c] + Join(parts[1..], [c]));
      assert ([c] + Join(parts[1..], [c]))[1..] == Join(parts[1..], [c]);
      assert [parts[0]] + parts[1..] == parts;
    }
  }

  lemma {:induction false} SplitNoSep(w: string, c: char)
    requires Lacks(w, c)
    ensures Split(w, c) == [w]
  {
    if w != [] {
      SplitNoSep(w[1..], c);
      assert [w[0]] + w[1..] == w;
    }
  }

  /** A separator-free prefix `w` becomes the front of the first field. */
  lemma {:induction false} SplitPrefix(w: string, rest: string, c: char)
    requires Lacks(w, c)
    requires rest != [] && rest[0] == c
    ensures Split(w + rest, c) == [w] + Split(rest[1..], c)
  {
    if w == [] {
      assert w + rest == rest;
    } else {
      assert (w + rest)[1..] == w[1..] + rest;
      SplitPrefix(w[1..], rest, c);
      assert [w[0]] + w[1..] == w;
    }
  }

  /** `s.split(c, 1)`: the text before the first `c` and the text after it. */
  function SplitOnce(s: string, c: char): (r: Option<(string, string)>)
    ensures r.None? <==> Lacks(s, c)
    ensures r.Some? ==> s == r.value.0 + [c] + r.value.1 && Lacks(r.value.0, c)
  {
    if s == [] then None
    else if s[0] == c then Some(([], s[1..]))
    else
      match SplitOnce(s[1..], c)
      case None => None
      case Some((before, after)) => Some(([s[0]] + before, after))
  }

  // ---------------------------------------------------------------------------
  // Replacing characters, case mapping
  // ---------------------------------------------------------------------------

  /** `s.replace(a, b)` for single characters. */
  function ReplaceChar(s: string, a: char, b: char): (r: string)
    ensures |r| == |s|
    ensures forall i :: 0 <= i < |s| ==> r[i] == (if s[i] == a then b else s[i])
  {
    if s == [] then [] else [if s[0] == a then b else s[0]] + ReplaceChar(s[1..], a, b)
  }

  function LowerChar(c: char): char {
    if 'A' <= c <= 'Z' then (c as int + 32) as char else c
  }

  function UpperChar(c: char): char {
    if 'a' <= c <= 'z' then (c as int - 32) as char else c
  }

  /** `s.lower()` on the ASCII letters. */
  function Lower(s: string): (r: string)
    ensures |r| == |s|
    ensures forall i :: 0 <= i < |s| ==> r[i] == LowerChar(s[i])
  {
    if s == [] then [] else [LowerChar(s[0])] + Lower(s[1..])
  }

  // ---------------------------------------------------------------------------
  // Integers as text
  // ---------------------------------------------------------------------------

  function DigitChar(d: nat): char
    requires d < 10
  {
    ('0' as int + d) as char
  }

  function DigitValue(c: char): nat
    requires IsDigit(c)
  {
    c as int - '0' as int
  }

  /** `str(n)` for a natural number. */
  function NatToString(n: nat): (r: string)
    ensures |r| > 0 && AllDigits(r)
  {
    if n < 10 then [DigitChar(n)] else NatToString(n / 10) + [DigitChar(n % 10)]
  }

  /** The value of a run of decimal digits, as `int(...)` reads it. */
  function DigitsValue(s: string): nat
    requires AllDigits(s)
  {
    if s == [] then 0 else DigitsValue(s[..|s| - 1]) * 10 + DigitValue(s[|s| - 1])
  }

  lemma {:induction false} DigitsOfNat(n: nat)
    ensures DigitsValue(NatToString(n)) == n
  {
    var s := NatToString(n);
    if n >= 10 {
      DigitsOfNat(n / 10);
      assert s[..|s| - 1] == NatToString(n / 10);
    }
  }

  /** `str(i)` for any integer. */
  function IntToString(i: int): (r: string)
    ensures |r| > 0 && !IsSpace(r[0]) && !IsSpace(r[|r| - 1])
  {
    if i < 0 then "-" + NatToString(-i) else NatToString(i)
  }

  /** `int(text)`: optional surrounding whitespace, an optional sign, and one
      or more decimal digits; anything else is a `ValueError`, here `None`. */
  function ParseInt(text: string): Option<int>
  {
    var s := Strip(text);
    if |s| > 1 && (s[0] == '-' || s[0] == '+') && AllDigits(s[1..]) then
      var magnitude: int := DigitsValue(s[1..]);
      Some(if s[0] == '-' then -magnitude else magnitude)
    else if |s| > 0 && AllDigits(s) then Some(DigitsValue(s))
    else None
  }

  /** `int(str(i)) == i`. */
  lemma ParseIntToString(i: int)
    ensures ParseInt(IntToString(i)) == Some(i)
  {
    var s := IntToString(i);
    StripNoop(s);
    if i < 0 {
      DigitsOfNat(-i);
      assert s[1..] == NatToString(-i);
    } else {
      DigitsOfNat(i);
    }
  }
}
