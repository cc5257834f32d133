/** The image-type strings of the selection list ("cSLO BAF", "cSLO IRAF (2nd)",
    "cSLO BAF [select]", "OCT horizontal"): the ordinal they carry, how a
    chosen string is parsed into an `ImageType` record (`ImageType.from_tuple`),
    and the initial display name of a chosen row. */
module ImageTypes {
  import opened Wrappers
  import opened Text

  /** "st", "nd", "rd" or "th". */
  predicate SuffixText(t: string)
  {
    |t| == 2 && ((t[0] == 's' && t[1] == 't') || (t[0] == 'n' && t[1] == 'd')
              || (t[0] == 'r' && t[1] == 'd') || (t[0] == 't' && t[1] == 'h'))
  }

  /** The English suffix of an ordinal: 11th to 20th (mod 100) are "th",
      otherwise the last digit decides. */
  function OrdinalSuffix(n: nat): (r: string)
    ensures SuffixText(r)
  {
    if 10 <= n % 100 <= 20 then "th"
    else if n % 10 == 1 then "st"
    else if n % 10 == 2 then "nd"
    else if n % 10 == 3 then "rd"
    else "th"
  }

  /** The teen rule only ever turns "st", "nd" and "rd" into "th" for 11,
      12 and 13 (mod 100): the suffix is "st" exactly when the last digit
      is 1 and the last two are not 11, and so on. */
  lemma OrdinalSuffixRule(n: nat)
    ensures OrdinalSuffix(n) == "st" <==> n % 10 == 1 && n % 100 != 11
    ensures OrdinalSuffix(n) == "nd" <==> n % 10 == 2 && n % 100 != 12
    ensures OrdinalSuffix(n) == "rd" <==> n % 10 == 3 && n % 100 != 13
  {
    assert n % 10 == (n % 100) % 10;
  }

  /** `ordinal(n)`: "1st", "2nd", "3rd", "4th", ..., "11th", "21st". */
  function Ordinal(n: nat): (r: string)
    ensures |r| >= 3 && AllDigits(r[..|r| - 2]) && SuffixText(r[|r| - 2..])
    ensures DigitsValue(r[..|r| - 2]) == n
  {
    var digits := NatToString(n);
    DigitsOfNat(n);
    var r := digits + OrdinalSuffix(n);
    assert r[..|r| - 2] == digits;
    r
  }

  lemma OrdinalExamples()
    ensures Ordinal(1) == "1st" && Ordinal(2) == "2nd" && Ordinal(3) == "3rd" && Ordinal(4) == "4th"
  {
  }

  lemma OrdinalTeenExamples()
    ensures Ordinal(11) == "11th" && Ordinal(12) == "12th" && Ordinal(13) == "13th"
  {
  }

  lemma OrdinalLargeExamples()
    ensures Ordinal(21) == "21st" && Ordinal(112) == "112th"
  {
  }

  /** Where a run of ASCII digits ending at `j` starts. */
  function DigitRunStart(s: string, j: nat): (r: nat)
    requires j <= |s|
    ensures r <= j && AllDigits(s[r..j])
    ensures r == 0 || !IsDigit(s[r - 1])
    decreases j
  {
    if j > 0 && IsDigit(s[j - 1]) then
      var r := DigitRunStart(s, j - 1);
      assert s[r..j] == s[r..j - 1] + [s[j - 1]];
      r
    else j
  }

  /** A match of the ordinal pattern ` \((\d+)(st|nd|rd|th)\)$`: the matched
      text is `s[start..end]` and `n` is the value of its digits. */
  datatype OrdinalMatch = OrdinalMatch(start: nat, end: nat, n: nat)

  /** The pattern matched against `s[..end]` so that it ends exactly at `end`. */
  function OrdinalEndingAt(s: string, end: nat): (r: Option<OrdinalMatch>)
    requires end <= |s|
    ensures r.Some? ==> r.value.end == end && r.value.start + 6 <= end
    ensures r.Some? ==> s[r.value.start..r.value.start + 2] == " ("
    ensures r.Some? ==> s[end - 1] == ')' && SuffixText(s[end - 3..end - 1])
    ensures r.Some? ==> (AllDigits(s[r.value.start + 2..end - 3])
                     && r.value.n == DigitsValue(s[r.value.start + 2..end - 3]))
  {
    if end < 6 || s[end - 1] != ')' || !SuffixText(s[end - 3..end - 1]) then None
    else
      var d := DigitRunStart(s, end - 3);
      if d == end - 3 || d < 2 || s[d - 1] != '(' || s[d - 2] != ' ' then None
      else
        assert s[d - 2..d] == [s[d - 2], s[d - 1]];
        Some(OrdinalMatch(d - 2, end, DigitsValue(s[d..end - 3])))
  }

  /** `re.search` of the ordinal pattern. Python's `$` matches at the end of
      the string and also just before a newline that ends it, so the match
      may end at `|s|` or, when `s` ends with '\n', at `|s| - 1`; both cannot
      happen at once, and a match ending at a given place starts at the
      place the maximal digit run fixes, so the match is unique. */
  function FindOrdinal(s: string): (r: Option<OrdinalMatch>)
    ensures r.Some? ==> (r.value.start + 6 <= r.value.end
                     && (r.value.end == |s| || (r.value.end == |s| - 1 && s[|s| - 1] == '\n')))
  {
    if |s| > 0 && s[|s| - 1] == '\n' then OrdinalEndingAt(s, |s| - 1)
    else OrdinalEndingAt(s, |s|)
  }

  /** `re.sub` of the ordinal pattern with "": the one match, if any, cut out. */
  function RemoveOrdinal(s: string): (r: string)
    ensures FindOrdinal(s).None? ==> r == s
    ensures FindOrdinal(s).Some? ==> |r| == |s| - (FindOrdinal(s).value.end - FindOrdinal(s).value.start)
    ensures FindOrdinal(s).Some? ==>
      var m := FindOrdinal(s).value;
      r[..m.start] == s[..m.start] && r[m.start..] == s[m.end..]
  {
    match FindOrdinal(s)
    case None => s
    case Some(m) => s[..m.start] + s[m.end..]
  }

  /** The record a chosen image-type string is parsed into. `imager` is
      lower-cased ("cslo", "oct"); `multipleIndex` is the ordinal minus one. */
  datatype ImageType = ImageType(
    imager: string,
    typeName: string,
    selectRequired: bool,
    multipleIndex: Option<int>,
    customName: string)

  const SelectTag: string := " [select]"

  /** What `from_tuple` reads from the text after the imager: the name
      (stripped), the "[select]" flag and the zero-based ordinal index. */
  datatype Tags = Tags(name: string, select: bool, index: Option<int>)

  /** One trailing " [select]" is dropped. */
  function DropSelect(s: string): string
  {
    if EndsWith(s, SelectTag) then s[..|s| - 9] else s
  }

  /** The zero-based index a trailing " (kth)" stands for. */
  function OrdinalIndex(remainder: string): (r: Option<int>)
    ensures r.Some? <==> FindOrdinal(remainder).Some?
    ensures r.Some? ==> r.value >= -1
  {
    match FindOrdinal(remainder)
    case None => None
    case Some(m) => Some(m.n - 1)
  }

  /** A trailing " (kth)" gives index k - 1 and is cut off; then a trailing
      " [select]" sets the flag and is cut off; what is left is stripped. */
  function ParseTags(remainder: string): (t: Tags)
    ensures t.name == Strip(t.name)
  {
    var rest := RemoveOrdinal(remainder);
    var name := DropSelect(rest);
    StripIdempotent(name);
    Tags(Strip(name), EndsWith(rest, SelectTag), OrdinalIndex(remainder))
  }

  /** `ImageType.from_tuple`: split off the imager at the first space (a
      string with no space is a `ValueError`), lower-case it, and read the
      tags from the rest. */
  function FromTuple(request: string, customName: string): (r: Result<ImageType>)
    ensures r.Err? <==> Lacks(request, ' ')
    ensures r.Ok? ==> r.value.customName == customName && r.value.typeName == Strip(r.value.typeName)
  {
    match SplitOnce(request, ' ')
    case None => Err(ValueError("not enough values to unpack (expected 2, got 1)"))
    case Some((imager, remainder)) =>
      var t := ParseTags(remainder);
      Ok(ImageType(Lower(imager), t.name, t.select, t.index, customName))
  }

  /** The tags a selection-list string carries after its type name. */
  function TagText(select: bool, n: Option<nat>): string
  {
    (if select then SelectTag else "")
      + (match n case None => "" case Some(k) => " (" + Ordinal(k) + ")")
  }

  /** The selection-list string for an imager, a type name and its tags. */
  function Request(imager: string, name: string, select: bool, n: Option<nat>): string
  {
    imager + " " + name + TagText(select, n)
  }

  /** The index a tag with ordinal k stands for. */
  function IndexOf(n: Option<nat>): Option<int>
  {
    match n
    case None => None
    case Some(k) => Some(k - 1)
  }

  /** A type name that reads back as itself: no surrounding whitespace and
      no tag of its own at the end. */
  predicate PlainName(name: string)
  {
    Strip(name) == name && !EndsWith(name, SelectTag) && FindOrdinal(name).None?
  }

  lemma {:induction false} SplitOnceFirst(a: string, b: string, c: char)
    requires Lacks(a, c)
    ensures SplitOnce(a + [c] + b, c) == Some((a, b))
  {
    var s := a + [c] + b;
    if a != [] {
      assert s[1..] == a[1..] + [c] + b;
      SplitOnceFirst(a[1..], b, c);
      assert [a[0]] + a[1..] == a;
    }
  }

  /** A tag " (<digits><suffix>)" at the very end of a string is found and
      cut out, whatever precedes it. */
  lemma {:induction false} TagFound(body: string, o: string)
    requires |o| >= 3 && AllDigits(o[..|o| - 2]) && SuffixText(o[|o| - 2..])
    ensures FindOrdinal(body + " (" + o + ")")
         == Some(OrdinalMatch(|body|, |body| + |o| + 3, DigitsValue(o[..|o| - 2])))
    ensures RemoveOrdinal(body + " (" + o + ")") == body
  {
    var s := body + " (" + o + ")";
    var end := |s|;
    assert s[end - 1] == ')';
    assert s[end - 3..end - 1] == o[|o| - 2..];
    assert s[|body| + 2..end - 3] == o[..|o| - 2];
    DigitRunFrom(s, |body| + 2, end - 3);
    assert s[|body| + 1] == '(' && s[|body|] == ' ';
    assert s[..|body|] == body;
  }

  lemma OrdinalTagFound(body: string, k: nat)
    ensures FindOrdinal(body + " (" + Ordinal(k) + ")")
         == Some(OrdinalMatch(|body|, |body| + |Ordinal(k)| + 3, k))
    ensures RemoveOrdinal(body + " (" + Ordinal(k) + ")") == body
  {
    TagFound(body, Ordinal(k));
  }

  /** A digit run preceded by a non-digit starts where the non-digit ends. */
  lemma {:induction false} DigitRunFrom(s: string, i: nat, j: nat)
    requires 1 <= i <= j <= |s| && AllDigits(s[i..j]) && !IsDigit(s[i - 1])
    ensures DigitRunStart(s, j) == i
    decreases j
  {
    if j > i {
      assert IsDigit(s[i..j][j - 1 - i]);
      assert s[i..j - 1] == s[i..j][..j - 1 - i];
      DigitRunFrom(s, i, j - 1);
    }
  }

  lemma NoOrdinalAfterSelect(name: string)
    ensures FindOrdinal(name + SelectTag).None?
  {
    var s := name + SelectTag;
    assert s[|s| - 1] == ']';
  }

  lemma SelectTagFound(name: string)
    ensures EndsWith(name + SelectTag, SelectTag)
    ensures (name + SelectTag)[..|name + SelectTag| - 9] == name
  {
    var s := name + SelectTag;
    assert s[|s| - 9..] == SelectTag;
  }

  lemma NoSelectAfterOrdinal(name: string, k: nat)
    ensures !EndsWith(name + " (" + Ordinal(k) + ")", SelectTag)
  {
    var s := name + " (" + Ordinal(k) + ")";
    assert s[|s| - 1] == ')';
  }

  /** A name with or without " [select]" after it. */
  function WithSelect(name: string, select: bool): string
  {
    name + (if select then SelectTag else "")
  }

  lemma SelectPart(name: string, select: bool)
    requires PlainName(name)
    ensures EndsWith(WithSelect(name, select), SelectTag) == select
    ensures DropSelect(WithSelect(name, select)) == name
  {
    if select {
      SelectTagFound(name);
    } else {
      assert WithSelect(name, select) == name;
    }
  }

  lemma OrdinalPartNone(name: string, select: bool)
    requires PlainName(name)
    ensures RemoveOrdinal(WithSelect(name, select)) == WithSelect(name, select)
    ensures OrdinalIndex(WithSelect(name, select)) == None
  {
    if select {
      NoOrdinalAfterSelect(name);
    } else {
      assert WithSelect(name, select) == name;
    }
  }

  lemma OrdinalPartSome(tagged: string, k: nat)
    ensures RemoveOrdinal(tagged + " (" + Ordinal(k) + ")") == tagged
    ensures OrdinalIndex(tagged + " (" + Ordinal(k) + ")") == Some(k - 1)
  {
    OrdinalTagFound(tagged, k);
  }

  lemma TailShape(name: string, select: bool, n: Option<nat>)
    ensures n.None? ==> name + TagText(select, n) == WithSelect(name, select)
    ensures n.Some? ==> name + TagText(select, n) == WithSelect(name, select) + " (" + Ordinal(n.value) + ")"
  {
  }

  lemma OrdinalPart(name: string, select: bool, n: Option<nat>)
    requires PlainName(name)
    ensures RemoveOrdinal(name + TagText(select, n)) == WithSelect(name, select)
    ensures OrdinalIndex(name + TagText(select, n)) == IndexOf(n)
  {
    TailShape(name, select, n);
    if n.None? {
      OrdinalPartNone(name, select);
    } else {
      OrdinalPartSome(WithSelect(name, select), n.value);
    }
  }

  /** The tags of a selection-list entry read back as written. */
  lemma ParseTagsOfTail(name: string, select: bool, n: Option<nat>)
    requires PlainName(name)
    ensures ParseTags(name + TagText(select, n)) == Tags(name, select, IndexOf(n))
  {
    OrdinalPart(name, select, n);
    SelectPart(name, select);
  }

  /** Every string the selection list offers parses back into its parts:
      the imager lower-cased, the name, the "[select]" flag and the
      zero-based index of the ordinal. */
  lemma FromTupleOfRequest(imager: string, name: string, select: bool, n: Option<nat>, customName: string)
    requires Lacks(imager, ' ') && PlainName(name)
    ensures FromTuple(Request(imager, name, select, n), customName)
         == Ok(ImageType(Lower(imager), name, select, IndexOf(n), customName))
  {
    var tail := name + TagText(select, n);
    assert Request(imager, name, select, n) == imager + [' '] + tail;
    SplitOnceFirst(imager, tail, ' ');
    ParseTagsOfTail(name, select, n);
  }

  /** `custom_name[0].upper() + custom_name[1:]`; an empty name is an `IndexError`. */
  function Capitalize(s: string): (r: Result<string>)
    ensures r.Err? <==> s == []
    ensures r.Ok? ==> |r.value| == |s| && r.value[1..] == s[1..] && r.value[0] == UpperChar(s[0])
  {
    if s == [] then Err(IndexError("string index out of range"))
    else Ok([UpperChar(s[0])] + s[1..])
  }

  /** One leading "cSLO " is dropped, or else one leading "OCT ". */
  function DropImager(selection: string): string
  {
    if StartsWith(selection, "cSLO ") then selection[5..]
    else if StartsWith(selection, "OCT ") then selection[4..]
    else selection
  }

  /** The display name a newly chosen row starts with: drop the imager,
      then a trailing " [select]", then an ordinal tag, and capitalise the
      first character. */
  function DefaultDisplayName(selection: string): (r: Result<string>)
    ensures r.Err? <==> RemoveOrdinal(DropSelect(DropImager(selection))) == []
  {
    Capitalize(RemoveOrdinal(DropSelect(DropImager(selection))))
  }

  lemma DropImagerOf(imager: string, tail: string)
    requires imager in {"cSLO", "OCT"}
    ensures DropImager(imager + " " + tail) == tail
  {
    var s := imager + " " + tail;
    if imager == "cSLO" {
      assert s[..5] == "cSLO " && s[5..] == tail;
    } else {
      assert s[0] == 'O';
      assert s[..4] == "OCT " && s[4..] == tail;
    }
  }

  /** A list entry with at most one tag shows as its capitalised type name. */
  lemma DisplayNameOfRequest(imager: string, name: string, select: bool, n: Option<nat>)
    requires imager in {"cSLO", "OCT"} && PlainName(name)
    requires !(select && n.Some?)
    ensures DefaultDisplayName(Request(imager, name, select, n)) == Capitalize(name)
  {
    var tail := name + TagText(select, n);
    assert Request(imager, name, select, n) == imager + " " + tail;
    DropImagerOf(imager, tail);
    TagsRemoved(name, select, n);
  }

  /** Dropping a "[select]" tag and then an ordinal tag leaves the type name. */
  lemma TagsRemoved(name: string, select: bool, n: Option<nat>)
    requires PlainName(name) && !(select && n.Some?)
    ensures RemoveOrdinal(DropSelect(name + TagText(select, n))) == name
  {
    match n {
      case None =>
        if select {
          SelectTagFound(name);
          assert name + TagText(select, n) == name + SelectTag;
        } else {
          assert name + TagText(select, n) == name;
        }
      case Some(k) =>
        assert name + TagText(select, n) == name + " (" + Ordinal(k) + ")";
        NoSelectAfterOrdinal(name, k);
        OrdinalTagFound(name, k);
    }
  }

  /** A three-to-eight-letter word with no digits and no spaces reads back as itself. */
  lemma WordIsPlain(name: string)
    requires 3 <= |name| < 9 && forall k :: 0 <= k < |name| ==> 'A' <= name[k] <= 'z'
    ensures PlainName(name)
  {
    var last := name[|name| - 1];
    assert 'A' <= name[0] <= 'z' && 'A' <= last <= 'z';
    assert !IsSpace(name[0]) && !IsSpace(last);
    StripNoop(name);
    assert !EndsWith(name, SelectTag);
    assert last != ')' && last != '\n';
    assert FindOrdinal(name) == OrdinalEndingAt(name, |name|) == None;
  }

  lemma LowerImagers()
    ensures Lower("cSLO") == "cslo" && Lower("OCT") == "oct"
  {
  }

  lemma ShippedRequestTexts()
    ensures Request("cSLO", "BAF", true, None) == "cSLO BAF [select]"
    ensures Request("OCT", "vertical", false, None) == "OCT vertical"
  {
    assert "cSLO" + " " + "BAF" == "cSLO BAF";
    assert TagText(true, None) == " [select]";
    assert "OCT" + " " + "vertical" == "OCT vertical";
  }

  lemma OrdinalRequestText()
    ensures Request("cSLO", "IRAF", false, Some(1)) == "cSLO IRAF (1st)"
  {
    OrdinalExamples();
    assert TagText(false, Some(1)) == " (1st)";
    assert "cSLO" + " " + "IRAF" == "cSLO IRAF";
  }

  /** The requests the program ships with, read field by field. */
  lemma ShippedSelectRequest()
    ensures FromTuple("cSLO BAF [select]", "BAF") == Ok(ImageType("cslo", "BAF", true, None, "BAF"))
  {
    WordIsPlain("BAF");
    LowerImagers();
    FromTupleOfRequest("cSLO", "BAF", true, None, "BAF");
    ShippedRequestTexts();
  }

  lemma ShippedOrdinalRequest()
    ensures FromTuple("cSLO IRAF (1st)", "IRAF") == Ok(ImageType("cslo", "IRAF", false, Some(0), "IRAF"))
  {
    WordIsPlain("IRAF");
    LowerImagers();
    FromTupleOfRequest("cSLO", "IRAF", false, Some(1), "IRAF");
    OrdinalRequestText();
  }

  lemma ShippedPlainRequest()
    ensures FromTuple("OCT vertical", "Vertical") == Ok(ImageType("oct", "vertical", false, None, "Vertical"))
  {
    WordIsPlain("vertical");
    LowerImagers();
    FromTupleOfRequest("OCT", "vertical", false, None, "Vertical");
    ShippedRequestTexts();
  }

  lemma SelectAfterOrdinalTags()
    ensures ParseTags("BAF (1st) [select]") == Tags("BAF (1st)", true, None)
  {
    var remainder := "BAF (1st) [select]";
    assert FindOrdinal(remainder) == None;
    assert EndsWith(remainder, SelectTag);
    assert DropSelect(remainder) == "BAF (1st)";
    StripNoop("BAF (1st)");
  }

  /** The ordinal is looked for only at the very end, so in
      "BAF (1st) [select]" it stays part of the type name. */
  lemma OrdinalBeforeSelectKept(customName: string)
    ensures FromTuple("cSLO BAF (1st) [select]", customName)
         == Ok(ImageType("cslo", "BAF (1st)", true, None, customName))
  {
    SplitOnceFirst("cSLO", "BAF (1st) [select]", ' ');
    assert "cSLO" + [' '] + "BAF (1st) [select]" == "cSLO BAF (1st) [select]";
    SelectAfterOrdinalTags();
    LowerImagers();
  }
}
