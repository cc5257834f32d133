# In vivo image compilation: a Dafny model

This project models the integer and string logic of `in_vivo_image_compilation`.
The tool puts retinal images of many mice onto one document: cSLO fundus
images (BAF, IRAF, ...) and OCT scans, each eye (OD, OS) of each subject in a
column pair, with headings, modality labels and group headers. The model
covers what decides where each image and each caption goes:

- the default row/column grid and the row/column entry boxes;
- parsing requested image types ("cSLO IRAF (2nd)", "cSLO BAF [select]") and
  building the list of available types;
- reading subject, eye and modality out of file names, and filling the
  subject -> eye -> imager table of candidate files;
- deciding which file fills a slot (first match, n-th by image number, or the
  interactive pick);
- the OCT crop-or-pad window around the retina;
- one subject's canvas: size, heading, and the two eye columns;
- the master layout: row-major placement, per-row labels, groups, and the extent;
- the OCR ear-tag text cleanup;
- the older fixed 2x2 compilation with its own file filter and document size.

Images are sizes, fonts are bounding-box functions, drawing a text or pasting
an image is recording a placed rectangle. The picker dialog, the file system
and image opening are parameters. Modules, one per file:

| file | module | what it models |
|---|---|---|
| wrappers.dfy | Wrappers | `Option`, `Result`, and the Python exceptions the code can raise |
| text.dfy | Text | the `str` operations used: `strip`, `split`, `" ".join`, `in`, `replace`, `lower`, `int()`, `str()` |
| sorting.dfy | Sorting | `sorted` on strings and the stable `list.sort(key=...)` |
| filenames.dfy | FileNames | `os.path.basename`/`splitext`, `convert_path_to_base_name_and_parts` |
| geometry.dfy | Geometry | sizes, bounding boxes, `measure_text` |
| grid.dfy | Grid | `determine_row_and_column_number`, `update_numbers`/`update_columns`/`update_rows` |
| image_type.dfy | ImageTypes | `ordinal`, `ImageType.from_tuple`, the default display name |
| availability.dfy | Availability | `determine_what_images_are_available` |
| buckets.dfy | Buckets | `build_mouse_image_list` (`remove_unneeded_images`, `create_image_path_dic`) |
| slots.dfy | Slots | slot resolution in `assemble_mouse_image_grid` |
| oct_crop.dfy | OctCrop | `find_oct_retina_bounds` row selection, `crop_oct_image`, `crop_cslo_image` |
| canvas.dfy | SubjectCanvas | `assemble_mouse_image_grid`: size, heading, eye columns |
| layout.dfy | MasterLayout | `create_master_canvas` |
| subjects.dfy | LayoutCanvases | the subject canvases `create_master_canvas` places, from `assemble_mouse_image_grid` |
| ear_tag.dfy | EarTags | the OCR text cleanup of `determine_labID_in_cslo_images` |
| legacy.dfy | LegacyCompilation | `cSLO_image_compilation.py`: `find_image_files`, `center_text_between_images`, `compile_images` |

The four source files repeat several helpers word for word. Each helper is
modelled once. Its row cites the copy in `cSLO_image_compilation_v2.py` and
names the other copies after "also".

A few behaviours of the code are easy to mistake; the model keeps each as the
code has it:
- `determine_row_and_column_number` (cSLO_image_compilation_v2.py:805-817)
  gives 4 -> (2, 3), 9 -> (3, 4) and 16 -> (4, 5): the grid is about square and
  has one or two more columns than rows. `Grid.GridShapeExamples` states these.
- `assemble_mouse_image_grid` does not catch an error of `Image.open`
  (cSLO_image_compilation_v2.py:2012), so an image that cannot be decoded ends
  the run rather than becoming a placeholder. Decoding is outside the model:
  the opener always yields an image.
- A request string or file name with the wrong number of fields is not
  skipped. The code raises `ValueError` from the unpacking in
  `determine_what_images_are_available` (cSLO_image_compilation_v2.py:1059)
  and in `from_tuple` (cSLO_image_compilation_v2.py:1538), and `IndexError` in
  `convert_path_to_base_name_and_parts` (cSLO_image_compilation_v2.py:1564-1572).
  The model returns that error.
- `crop_oct_image` (cSLO_image_compilation_v2.py:1710-1745) treats the
  no-retina sentinel `(height, 0)` as any other bounds: its centre is
  `height // 2`, and the image is cropped or padded around that row
  (`OctCrop.RetinaInWindow`).

## Model

| member | source | states |
|---|---|---|
| Text.FindFrom | cSLO_image_compilation_v2.py:544-545 | the first occurrence of a substring at or after a position, with no earlier one; `None` exactly when there is none (`folder in s`, `s.split(folder, 1)`) |
| Text.ContainsIff | cSLO_image_compilation_v2.py:544 | `sub in s` holds exactly when `sub` occurs at some index |
| Text.StripSpec | cSLO_image_compilation_v2.py:1556 | `strip()` returns a slice whose removed ends are whitespace and whose own ends are not whitespace |
| Text.StripIdempotent | cSLO_image_compilation_v2.py:1556 | stripping twice is stripping once |
| Text.CollapseSpacesSpec | cSLO_image_compilation_v2.py:550 | `" ".join(s.split())` has single ' ' separators only, no space at either end, and is unchanged by a second pass |
| Text.Words | cSLO_image_compilation_v2.py:550 | `split()` with no argument gives non-empty words without whitespace |
| Text.WordsOfJoin | cSLO_image_compilation_v2.py:550 | splitting words joined by single spaces gives the words back |
| Text.CollapseSpacesChars | cSLO_image_compilation_v2.py:550 | every character of the collapsed text is a space or a character of the input |
| Text.SplitJoin | cSLO_image_compilation_v2.py:1566 | `s.split("_")` of fields joined by '_' gives the fields back when none contains '_' |
| Text.SplitOnce | cSLO_image_compilation_v2.py:1538 | `split(" ", 1)` gives the text before the first separator and the rest, `None` exactly when there is no separator |
| Text.ReplaceChar | cSLO_image_compilation_v2.py:549 | `replace` of one character keeps the length and maps exactly the replaced character |
| Text.Split | cSLO_image_compilation_v2.py:1566 | `split` on one character gives at least one piece |
| Text.SplitFields | cSLO_image_compilation_v2.py:1566 | no piece of `split` contains the separator |
| Text.Lower | cSLO_image_compilation_v2.py:1555 | `lower()` maps each character to its lower-case form |
| Text.ParseIntToString | cSLO_image_compilation_v2.py:797-799 | `int(str(n)) == n` for every integer, so the boxes written by `update_numbers` read back |
| Sorting.BelowTransitive | cSLO_image_compilation_v2.py:1097 | Python's string `<` is transitive |
| Sorting.BelowTotal | cSLO_image_compilation_v2.py:1097 | any two different strings are ordered one way |
| Sorting.SortedUnique | cSLO_image_compilation_v2.py:1097 | two strictly sorted lists with the same elements are equal, so `sorted(list(s))` is determined by the set |
| Sorting.SortedList | cSLO_image_compilation_v2.py:1097 | the list built from a set is strictly sorted and has exactly its elements |
| Sorting.Insert | cSLO_image_compilation_v2.py:1097 | inserting into a sorted list keeps it sorted and adds exactly the new element |
| Sorting.SortByKey | cSLO_image_compilation_v2.py:1987 | the sort by key orders by key and is a permutation |
| Sorting.InsertByKey | cSLO_image_compilation_v2.py:1987 | inserting by key keeps the list ordered by key and adds exactly the new element (as a multiset) |
| Sorting.InsertByKeyStable | cSLO_image_compilation_v2.py:1987 | the new element goes after the elements with its key, so those keep their order |
| Sorting.SortByKeyStable | cSLO_image_compilation_v2.py:1987 | the elements with one key keep their relative order (Python's sort is stable) |
| Sorting.SortByKeyConstant | cSLO_image_compilation_v2.py:1987 | a list whose keys are all equal is left as it is |
| FileNames.LastIndexOf | cSLO_image_compilation_v2.py:1565 | a position found lies inside the string |
| FileNames.LastIndexOfSpec | cSLO_image_compilation_v2.py:1565 | the last position of a character, with none after it; `None` exactly when absent |
| FileNames.BasenameSpec | cSLO_image_compilation_v2.py:1565 | `os.path.basename` is a suffix of the path with no '/' |
| FileNames.SplitExtSpec | cSLO_image_compilation_v2.py:1565 | `os.path.splitext` splits the name into root and extension, and the extension is empty or one '.' and no other '.' |
| FileNames.ConvertPathToBaseNameAndParts | cSLO_image_compilation_v2.py:1564-1584 | IndexError exactly for a cSLO name with fewer than four '_' fields or an OCT name with fewer than three; the base name has no directory and no last extension; an OCT image number is 0; another imager gives empty fields |
| FileNames.BaseNameOf | test3.py:99 | the base name of `dir/base.ext` is `base`: only the last extension is removed |
| FileNames.CsloNameRoundTrip | test3.py:98-118 | a cSLO file named from four fields gives those fields back as image number, subject, eye and modality |
| FileNames.OctNameRoundTrip | test3.py:98-118 | an OCT file named from three fields gives them back as subject, eye and modality, with image number 0 |
| Grid.IntSqrt | cSLO_image_compilation_v2.py:806-808 | the integer square root is the floor of the square root |
| Grid.IntSqrtIs | cSLO_image_compilation_v2.py:806-808 | the floor square root is the only r with r * r <= n < (r + 1) * (r + 1) |
| Grid.GridShapeFits | cSLO_image_compilation_v2.py:805-817 | rows * columns >= N, one row fewer would not fit, and columns - rows is 1 or 2 |
| Grid.GridShapeExamples | cSLO_image_compilation_v2.py:805-817 | 0 -> (0, 1), 1 -> (1, 2), 3 -> (1, 3), 4 -> (2, 3), 7 -> (2, 4), 9 -> (3, 4), 16 -> (4, 5) |
| Grid.DetermineRowAndColumnNumber | cSLO_image_compilation_v2.py:805-817 | the `while` loop terminates and returns the grid shape; the same code is at cSLO_image_compilation.py:40-52 and test.py:532-545 |
| Grid.CeilDiv | cSLO_image_compilation_v2.py:825 | `math.ceil(a / b)` is the least r with a <= r * b (for b > 0) |
| Grid.OtherEntry | cSLO_image_compilation_v2.py:820-842 | empty text changes nothing; text `int()` refuses clears the other box; a 0 raises ZeroDivisionError; otherwise the other box gets ceil(mice / value); also test.py:547-568 and cSLO_image_compilation.py:107-128 |
| Grid.OtherEntryCovers | cSLO_image_compilation_v2.py:820-842 | for a positive entry the other box gets the least count whose grid holds every mouse |
| Grid.RowColumnFrame.UpdateNumbers | cSLO_image_compilation_v2.py:792-799 | a new subject count writes the default grid into both boxes |
| Grid.RowColumnFrame.UpdateColumns | cSLO_image_compilation_v2.py:820-830 | the row box decides the new column box; nothing else changes; a ZeroDivisionError is returned, not caught |
| Grid.RowColumnFrame.UpdateRows | cSLO_image_compilation_v2.py:832-842 | the column box decides the new row box; nothing else changes |
| Grid.DefaultEntriesParse | cSLO_image_compilation_v2.py:797-799 | the default boxes read back as the default grid |
| ImageTypes.OrdinalSuffixRule | cSLO_image_compilation_v2.py:1076-1081 | "st", "nd", "rd" exactly for n % 10 = 1, 2, 3 outside n % 100 in 10..20; "th" otherwise (also test.py:824-829) |
| ImageTypes.OrdinalSuffix | cSLO_image_compilation_v2.py:1077-1080 | the suffix is always one of 'st', 'nd', 'rd', 'th' |
| ImageTypes.Ordinal | cSLO_image_compilation_v2.py:1076-1081 | `ordinal(n)` is the decimal digits of n followed by a two-letter suffix |
| ImageTypes.OrdinalExamples | cSLO_image_compilation_v2.py:1076-1081 | 1st, 2nd, 3rd, 4th |
| ImageTypes.OrdinalTeenExamples | cSLO_image_compilation_v2.py:1077 | 11th, 12th, 13th |
| ImageTypes.OrdinalLargeExamples | cSLO_image_compilation_v2.py:1076-1081 | 21st, 112th |
| ImageTypes.FindOrdinal | cSLO_image_compilation_v2.py:1543-1544 | the `re.search` of the ordinal pattern (a space, then digits and a suffix in parentheses, then `$`) finds a match only at the end of the text or just before a final newline |
| ImageTypes.RemoveOrdinal | cSLO_image_compilation_v2.py:1547 | `re.sub` of the pattern cuts out the one match and nothing else: the text before the match and the text after it are kept, in order |
| ImageTypes.NoOrdinalAfterSelect | cSLO_image_compilation_v2.py:1543-1544 | a name ending in ' [select]' never matches the ordinal pattern, which needs ')' at the end |
| ImageTypes.NoSelectAfterOrdinal | cSLO_image_compilation_v2.py:1550 | a name ending in ' (kth)' does not end in ' [select]' |
| ImageTypes.ParseTags | cSLO_image_compilation_v2.py:1543-1556 | the type name left after the ordinal and select tags is stripped |
| ImageTypes.ParseTagsOfTail | cSLO_image_compilation_v2.py:1543-1556 | a plain name followed by an optional ' (kth)' or ' [select]' tag gives back that name, the select flag and k - 1 |
| ImageTypes.OrdinalIndex | cSLO_image_compilation_v2.py:1545-1546 | the index is the ordinal minus one (so at least -1), present exactly when the pattern matches |
| ImageTypes.FromTuple | cSLO_image_compilation_v2.py:1535-1560 | a string with no space raises ValueError; the custom name is kept and the type name is stripped (also test3.py:71-96) |
| ImageTypes.FromTupleOfRequest | cSLO_image_compilation_v2.py:1535-1560 | a request built from an imager, a type name, the select flag and an ordinal parses back to the lower-cased imager, that name, that flag and the ordinal minus one |
| ImageTypes.ShippedSelectRequest | test3.py:34 | 'cSLO BAF [select]' -> ('cslo', 'BAF', select, no index) |
| ImageTypes.ShippedOrdinalRequest | test3.py:35 | 'cSLO IRAF (1st)' -> ('cslo', 'IRAF', no select, index 0) |
| ImageTypes.ShippedPlainRequest | test3.py:37 | 'OCT vertical' -> ('oct', 'vertical', no flags) |
| ImageTypes.OrdinalBeforeSelectKept | cSLO_image_compilation_v2.py:1543-1552 | in 'BAF (1st) [select]' the ordinal is not at the end, so it stays in the type name and only the select flag is read |
| ImageTypes.SelectAfterOrdinalTags | cSLO_image_compilation_v2.py:1543-1552 | the tags of 'BAF (1st) [select]': the select flag only, with 'BAF (1st)' as the name |
| ImageTypes.Capitalize | cSLO_image_compilation_v2.py:1170 | `s[0].upper() + s[1:]`, an IndexError exactly for the empty string |
| ImageTypes.DefaultDisplayName | cSLO_image_compilation_v2.py:1160-1170 | the display name fails exactly when nothing is left after removing the imager, the select tag and the ordinal (also test.py:908-918) |
| ImageTypes.DisplayNameOfRequest | cSLO_image_compilation_v2.py:1160-1170 | an offered list entry with at most one tag shows as its capitalised type name |
| Availability.Put | cSLO_image_compilation_v2.py:1062-1068 | a dictionary update sets one key, keeps the others, and appends a new key at the end of the insertion order |
| Availability.ImageFiles | cSLO_image_compilation_v2.py:1037-1041 | a file counts as an image exactly when its lower-cased last extension is an image extension |
| Availability.OctTypeAsWritten | cSLO_image_compilation_v2.py:1043 | `"OCT " + name.split("_")[2]` on the whole file name; IndexError exactly for fewer than three fields (also test.py:791) |
| Availability.OctTypeAsWrittenKeepsExtension | cSLO_image_compilation_v2.py:1043 | for `mouse_eye_modality.ext` the offered type carries the extension, while `convert_path_to_base_name_and_parts` reads the modality without it |
| Availability.OctType | cSLO_image_compilation_v2.py:1043 | the OCT type read from the base name; IndexError exactly for fewer than three fields |
| Availability.OctTypeOfFile | cSLO_image_compilation_v2.py:1043 | for `mouse_eye_modality.ext` the offered type is "OCT modality", the modality the file's path is later matched on |
| Availability.OctRequestReadsBack | cSLO_image_compilation_v2.py:1535-1560 | an offered "OCT modality" entry parses to imager 'oct' and that modality |
| Availability.CsloFields | cSLO_image_compilation_v2.py:1058-1059 | unpacking `image_base.split("_")` into four names fails exactly when there are not four fields |
| Availability.CountTableCounts | cSLO_image_compilation_v2.py:1056-1068 | the count of a type for a subject eye is the number of its files of that type |
| Availability.CountTableWellFormed | cSLO_image_compilation_v2.py:1056-1068 | the nested counting dictionaries have distinct keys |
| Availability.MergeMaxValue | cSLO_image_compilation_v2.py:1070-1074 | merging one eye's counts keeps the larger count per type |
| Availability.MaxCountsValue | cSLO_image_compilation_v2.py:1070-1074 | the maximum table holds, per type, the largest count over all subject eyes |
| Availability.MaxOverBounds | cSLO_image_compilation_v2.py:1070-1074 | that maximum bounds every eye's count and is reached by one of them |
| Availability.AddTypesMembers | cSLO_image_compilation_v2.py:1083-1093 | for distinct type names none of which ends in ')' or ']', an entry is in the set exactly when it is "cSLO T" for a maximum count of 1, or "cSLO T (kth)" for k up to the count or "cSLO T [select]" for a count of 2 or more, or it was there before and is not the bare name of a type whose count is not 1 (that one is discarded) |
| Availability.OfferedLast | cSLO_image_compilation_v2.py:1089-1092 | the numbered entries of a type are exactly 1st to kth |
| Availability.BareNotOffered | cSLO_image_compilation_v2.py:1083-1093 | the entries of one type never produce the bare name of another |
| Availability.AddOctTypes | cSLO_image_compilation_v2.py:1042-1044 | the OCT loop computes the OCT types of the files, stopping at the first IndexError |
| Availability.OctTypes | cSLO_image_compilation_v2.py:1042-1044 | adding OCT types only grows the set |
| Availability.OctTypesSpec | cSLO_image_compilation_v2.py:1042-1044 | with every base name of at least three '_' fields, the set gains exactly each file's "OCT <modality>"; otherwise the loop raises IndexError at the first file with fewer, keeping the types of the files before it |
| Availability.CountCsloImages | cSLO_image_compilation_v2.py:1056-1068 | the counting loop computes the count table or raises the unpacking error |
| Availability.MaxCountsOf | cSLO_image_compilation_v2.py:1070-1074 | the running-max loop computes the maximum table |
| Availability.MergeCounts | cSLO_image_compilation_v2.py:1072-1074 | the inner loop folds one eye's counts into the running maxima |
| Availability.AddCsloTypes | cSLO_image_compilation_v2.py:1083-1093 | the add/discard loop computes the offered cSLO entries |
| Availability.AddNumbered | cSLO_image_compilation_v2.py:1089-1093 | the inner loop adds the 1st..kth entries and the select entry |
| Availability.ImageSelection.DetermineWhatImagesAreAvailable | cSLO_image_compilation_v2.py:1031-1098 | the set holds the offered types of every directory; the list is that set strictly sorted; an error leaves the old list (also test.py:779-846) |
| Availability.AvailableStop | cSLO_image_compilation_v2.py:1035-1093 | an exception in one directory ends the scan: later directories add nothing |
| Buckets.WantedNames | cSLO_image_compilation_v2.py:1665 | the set of the type names of the requested types |
| Buckets.NeededSubsequence | cSLO_image_compilation_v2.py:1661-1680 | `remove_unneeded_images` returns a subsequence of its input (also test3.py:188-207) |
| Buckets.NeededMembers | cSLO_image_compilation_v2.py:1661-1680 | a path is kept exactly when its subject is known and its modality is a requested type name, whatever the imager |
| Buckets.NeededErr | cSLO_image_compilation_v2.py:1667 | the filter fails exactly when some path's name has too few fields |
| Buckets.RemoveUnneededImages | cSLO_image_compilation_v2.py:1661-1680 | the filter loop computes the kept subsequence |
| Buckets.NeededKnown | cSLO_image_compilation_v2.py:1669-1671 | every kept path belongs to a known subject |
| Buckets.FilePath | test3.py:210-220 | appending fails (KeyError) exactly for an unknown subject without lazy creation, or an eye other than OD/OS, or an unknown imager; lazy creation adds only that subject |
| Buckets.FilePathBuckets | test3.py:210-220 | appending a path changes only its own list, by appending it |
| Buckets.AddPathBuckets | cSLO_image_compilation_v2.py:1683-1686 | one path goes to the list of its subject, eye and imager |
| Buckets.AddAllBuckets | cSLO_image_compilation_v2.py:1683-1686 | after the loop every list is the old list followed by the paths of that subject and eye, in order |
| Buckets.AddAllClean | cSLO_image_compilation_v2.py:1683-1686 | no error when every path names a known subject and OD or OS |
| Buckets.InitialTable | cSLO_image_compilation_v2.py:1420-1424 | every subject starts with empty OD/OS x cslo/oct lists |
| Buckets.MouseImageList.CreateImagePathDic | cSLO_image_compilation_v2.py:1683-1686 | the table after the append loop (with lazy creation as in test3.py:210-220) |
| Buckets.MouseImageList.BuildMouseImageList | cSLO_image_compilation_v2.py:1688-1694 | filter both path lists, then file the cSLO paths and then the OCT paths |
| Buckets.BuildBuckets | cSLO_image_compilation_v2.py:1688-1694 | each list ends up holding the kept paths of its subject, eye and imager in input order |
| Slots.FirstMatchFound | cSLO_image_compilation_v2.py:1973-1978 | a path found is the first, in list order, whose modality is the requested one (also test3.py:361-367) |
| Slots.FirstMatchNone | cSLO_image_compilation_v2.py:1973-1978 | nothing is found exactly when every path has another modality |
| Slots.SameModality | cSLO_image_compilation_v2.py:1982-1986 | the (image number, path) pairs of the matching paths, in list order |
| Slots.PyIndex | cSLO_image_compilation_v2.py:1995-1999 | Python indexing: found exactly for -len <= i < len, and the result is an element |
| Slots.SlotChoice | cSLO_image_compilation_v2.py:1966-2007 | no paths gives nothing; a chosen file is one of the available paths when the picker returns a candidate |
| Slots.IndexBeforeSelect | cSLO_image_compilation_v2.py:1991-2002 | with an ordinal the select flag, the mode and the picker play no part |
| Slots.IndexedCandidate | cSLO_image_compilation_v2.py:1991-1999 | index n gives the n-th candidate after the sort, nothing when out of range, and '(0th)' (index -1) the last one |
| Slots.SelectOnlyWhenFull | cSLO_image_compilation_v2.py:2002-2007 | the picker is called only in mode 'full' with candidates; otherwise nothing, whatever the picker |
| Slots.CandidatesSorted | cSLO_image_compilation_v2.py:1987 | the candidates are ordered by image number |
| Slots.CandidatesCover | cSLO_image_compilation_v2.py:1980-1988 | the candidates are exactly the available paths with the requested modality |
| Slots.CandidatesIn | cSLO_image_compilation_v2.py:1980-1988 | every candidate is one of the available paths |
| Slots.MatchingIn | cSLO_image_compilation_v2.py:1983-1986 | a path is in the matching list exactly when it is available and has the requested modality |
| Slots.CandidatesCount | cSLO_image_compilation_v2.py:1980-1988 | the candidates are the matching paths reordered (equal multisets): no candidate is lost or duplicated |
| Slots.SortSeconds | cSLO_image_compilation_v2.py:1987-1988 | sorting the (number, path) pairs keeps the multiset of paths |
| Slots.CandidatesSameNumber | cSLO_image_compilation_v2.py:1987 | with equal image numbers the candidates stay in list order |
| Slots.OctIndexInListOrder | cSLO_image_compilation_v2.py:1984-1987 | OCT image numbers are all 0, so the n-th OCT candidate is the n-th in list order |
| Slots.StubPicksFirst | test3.py:336-339 | the stub picker returns the first candidate |
| Slots.ResolveSlot | cSLO_image_compilation_v2.py:1961-2007 | the slot loop body computes the slot choice |
| OctCrop.Cutoff | cSLO_image_compilation_v2.py:1390 | the cutoff is the larger of the brightness statistic and 50 |
| OctCrop.FirstBright | cSLO_image_compilation_v2.py:1394-1400 | the first row (from a start row) brighter than the cutoff, with none before it, or none at all |
| OctCrop.LastBright | cSLO_image_compilation_v2.py:1394-1401 | the last row (below a bound) brighter than the cutoff, with none after it, or none at all |
| OctCrop.RetinaBounds | cSLO_image_compilation_v2.py:1377-1402 | (height, 0) when no row is above the cutoff; otherwise top <= bottom, both above it, and none outside them (also test.py:1174-1199) |
| OctCrop.SentinelIffDark | cSLO_image_compilation_v2.py:1396-1397 | the sentinel comes back exactly when no row is brighter than the cutoff |
| OctCrop.CropOct | cSLO_image_compilation_v2.py:1710-1747 | equal height: unchanged; taller: a window of the target height inside the image, centred on the retina and clamped; shorter: padded at (target - height) // 2 so it fits |
| OctCrop.CropOctHeight | cSLO_image_compilation_v2.py:1710-1747 | the result always has the target height and the same width |
| OctCrop.WindowHoldsCentre | cSLO_image_compilation_v2.py:1731-1740 | the window contains the retina centre |
| OctCrop.RetinaInWindow | cSLO_image_compilation_v2.py:1727-1741 | the window holds the centre of the detected bounds; for the sentinel that centre is height // 2 |
| OctCrop.CropCslo | cSLO_image_compilation_v2.py:1703-1708 | the cSLO text strip is cut off, leaving a width x width square |
| SubjectCanvas.CountImager | cSLO_image_compilation_v2.py:1847-1852 | the number of requested types of one imager is at most the number of types |
| SubjectCanvas.CountImagerNone | cSLO_image_compilation_v2.py:1847-1852 | the count is 0 exactly when no requested type is of that imager |
| SubjectCanvas.CountImagers | cSLO_image_compilation_v2.py:1847-1852 | the counting loop computes both counts |
| SubjectCanvas.CountImagersAtMost | cSLO_image_compilation_v2.py:1847-1852 | the two counts together are at most the number of requested types |
| SubjectCanvas.MakeHeading | cSLO_image_compilation_v2.py:1876-1924 | heading height 10 + h('Hpqy') + 15 + h('OD') + 25, with the '(labID)' line added only when both id flags are set; OS text is one image width right of OD |
| SubjectCanvas.HeadingSameForEveryMouse | cSLO_image_compilation_v2.py:1876-1924 | unless both flags are set, the heading height is the same for every subject |
| SubjectCanvas.Resize | cSLO_image_compilation_v2.py:2042-2048 | an image is brought to the common width and its height scaled by the same ratio, rounded down; a ZeroDivisionError for a 0-wide image; an image of that width is left as it is |
| SubjectCanvas.SlotPicture | cSLO_image_compilation_v2.py:2011-2022 | no file gives a black placeholder of the imager's size; a cropped OCT image gets the target height |
| SubjectCanvas.SlotOutcome | cSLO_image_compilation_v2.py:1960-2048 | a placed slot is one image width wide; a missing imager list is a KeyError |
| SubjectCanvas.SlotOutcomeSteps | cSLO_image_compilation_v2.py:1960-2048 | the slot is the choice, then the picture, then the resize, and the first error of these stops it |
| SubjectCanvas.ColumnStacks | cSLO_image_compilation_v2.py:2050-2057 | within an eye the images share x; the first starts at the top and each starts where the previous one ends |
| SubjectCanvas.Column | cSLO_image_compilation_v2.py:1960-2057 | a column that succeeds has one placed image per requested type |
| SubjectCanvas.ColumnSlotHeights | cSLO_image_compilation_v2.py:2050-2057 | when every image has its slot height, the column is as tall as the slot heights together |
| SubjectCanvas.ColumnSlots | cSLO_image_compilation_v2.py:1960-2057 | the k-th placed image is the outcome of the k-th requested type, in declared order |
| SubjectCanvas.SlotHeightsArea | cSLO_image_compilation_v2.py:1854-1855 | the slot heights add up to the height of the image area |
| SubjectCanvas.ColumnFillsImageArea | cSLO_image_compilation_v2.py:2050-2057 | when every image has its slot height, a column fills exactly the image area |
| SubjectCanvas.FillSlot | cSLO_image_compilation_v2.py:1960-2048 | the slot body computes the slot outcome |
| SubjectCanvas.PlaceColumn | cSLO_image_compilation_v2.py:1960-2057 | the type loop computes one eye's column |
| SubjectCanvas.AssembleShape | cSLO_image_compilation_v2.py:1863-2061 | 'return_canvas_only' gives the blank image area; 'initiate heading' gives ''; a canvas is 2 * image width wide and image area + heading tall; 'preview_layout' places nothing; an unknown subject is a KeyError |
| SubjectCanvas.EyeColumnShape | cSLO_image_compilation_v2.py:2050-2057 | each eye column is a stack of image-wide rectangles from the heading down |
| SubjectCanvas.CanvasColumns | cSLO_image_compilation_v2.py:1944-2057 | OD images at x = 0 and OS images at x = image width, each column starting at the heading height |
| SubjectCanvas.MouseGrid.AssembleMouseImageGrid | cSLO_image_compilation_v2.py:1701-2061 | the method returns the assembled canvas and records the heading height except for 'return_canvas_only' |
| MasterLayout.CentreInside | cSLO_image_compilation_v2.py:2095-2106 | the centre of an element lies inside it, and right - left is its width |
| MasterLayout.FromText | cSLO_image_compilation_v2.py:2109-2123 | a text element is as wide and as tall as its measured box |
| MasterLayout.WidestLabelIsMax | cSLO_image_compilation_v2.py:2172-2178 | the widest label is at least every label's width and is one of them (or 0) |
| MasterLayout.ColumnOneXOffset | cSLO_image_compilation_v2.py:2171-2181 | the first x is outer + widest label + min(outer, 40) |
| MasterLayout.LabelsShape | cSLO_image_compilation_v2.py:2185-2222 | one text label per requested type; an imager other than cslo/oct is a ValueError |
| MasterLayout.LabelPlace | cSLO_image_compilation_v2.py:2186-2213 | label k is at the label column, centred in its slot below the heading |
| MasterLayout.PlaceMice | cSLO_image_compilation_v2.py:2231-2251 | a last element exists exactly when some subject was placed |
| MasterLayout.GridPlaces | cSLO_image_compilation_v2.py:2238-2251 | with equal canvases, subject k is placed at the k-th cursor |
| MasterLayout.CursorOnGrid | cSLO_image_compilation_v2.py:2245-2251 | the k-th cursor is column i % columns and row i / columns of the grid |
| MasterLayout.GridCount | cSLO_image_compilation_v2.py:2231-2242 | one image element per subject |
| MasterLayout.GridOk | cSLO_image_compilation_v2.py:2231-2251 | with known imagers and canvases that all build, placement never fails |
| MasterLayout.LabelsPerRow | cSLO_image_compilation_v2.py:2233-2234 | a set of labels is added at the start of every row |
| MasterLayout.RowsFromFirstColumn | cSLO_image_compilation_v2.py:2233-2249 | starting at column 0, m subjects start ceil(m / columns) rows |
| MasterLayout.RowsStartedCount | cSLO_image_compilation_v2.py:2233-2249 | starting at column col, m subjects start (col + m + columns - 1) / columns rows, less one when col is not 0 |
| MasterLayout.PlacedMice | cSLO_image_compilation_v2.py:2231-2242 | the placed subjects are the list, in order |
| MasterLayout.AssembleRunMice | cSLO_image_compilation_v2.py:2225-2256 | an empty subject list raises UnboundLocalError at `mouse_element.bottom`; otherwise the subjects are placed in order |
| MasterLayout.AssembleRunFaithful | cSLO_image_compilation_v2.py:2225-2256 | `assemble_mouse_canvases_into_layout` places exactly the subjects it is given, in order, for every list |
| MasterLayout.GroupMiceMembers | cSLO_image_compilation_v2.py:2278-2281 | a subject is in a group's list exactly when its group field is that group |
| MasterLayout.CollectGroup | cSLO_image_compilation_v2.py:2278-2281 | the loop collects the group's subjects in dictionary order |
| MasterLayout.TruncHalf | cSLO_image_compilation_v2.py:2275 | `int(m / 2)` rounds toward zero |
| MasterLayout.GroupsPlaced | cSLO_image_compilation_v2.py:2265-2285 | the subjects placed are the groups' subjects, group by group in group order |
| MasterLayout.GroupStep | cSLO_image_compilation_v2.py:2266-2285 | a group's subjects start below its header by the header height + int(row_margin / 2), and the next group starts 2 * row_margin below the last canvas |
| MasterLayout.GroupLoopFails | cSLO_image_compilation_v2.py:2266-2285 | when the first group's run fails, the group loop fails with that error; when the group is empty it fails with the UnboundLocalError of `mouse_element` |
| MasterLayout.GroupedOnlyListed | cSLO_image_compilation_v2.py:2265-2285 | a subject of a group not in the group order is never placed |
| MasterLayout.TitleLines | cSLO_image_compilation_v2.py:2153-2162 | the title at (outer, outer) and the subtitle below it by a fifth of its height |
| MasterLayout.LayoutMice | cSLO_image_compilation_v2.py:2259-2289 | the placed subjects are the grouped ones when there is a group order, otherwise all in dictionary order |
| MasterLayout.MasterLayoutMice | cSLO_image_compilation_v2.py:2259-2289 | the same for the layout built from any subject-canvas function, `LayoutCanvases.Canvases` among them |
| LayoutCanvases.CanvasOfShape | cSLO_image_compilation_v2.py:1895-1927 | a subject's canvas, as `assemble_mouse_image_grid(mouse)` returns it to the layout (v2:2237), is 2 * image width wide and image area + heading tall, with the heading drawn for that subject; a shown lab id of a subject missing from `mouse_info_dic`, and a subject without image lists outside 'preview_layout', are KeyErrors |
| LayoutCanvases.CanvasesUniform | cSLO_image_compilation_v2.py:1923-1924 | unless both the cSLO number and the lab id are shown, every subject's canvas has the same size and leaves the same heading height |
| LayoutCanvases.SubjectGrid | cSLO_image_compilation_v2.py:2231-2251 | on those canvases, placing the subjects succeeds and subject k lands at the k-th cursor of the uniform grid |
| MasterLayout.MaxRightSpec | cSLO_image_compilation_v2.py:2294-2301 | the widest right edge: at least outer and every element's right edge, and equal to outer or to one of them |
| MasterLayout.MaxBottomSpec | cSLO_image_compilation_v2.py:2294-2301 | the lowest bottom edge: at least outer and every element's bottom edge, and equal to outer or to one of them |
| MasterLayout.ExtentBounds | cSLO_image_compilation_v2.py:2293-2306 | every element lies inside the canvas with an outer margin |
| MasterLayout.ExtentTight | cSLO_image_compilation_v2.py:2293-2306 | the canvas is no larger than needed: each side is 2 * outer or one element's edge + outer |
| MasterLayout.MasterCanvas.InsertModalityText | cSLO_image_compilation_v2.py:2185-2222 | appends the row's labels or reports the ValueError |
| MasterLayout.MasterCanvas.PlaceNext | cSLO_image_compilation_v2.py:2231-2251 | one loop step: labels at a row start, the canvas element, and the next cursor |
| MasterLayout.MasterCanvas.PlaceAll | cSLO_image_compilation_v2.py:2225-2254 | the subject loop appends the run |
| MasterLayout.MasterCanvas.AssembleIntoLayout | cSLO_image_compilation_v2.py:2225-2256 | returns the bottom of the last canvas, or the error |
| MasterLayout.MasterCanvas.PlaceGroupsLoop | cSLO_image_compilation_v2.py:2265-2285 | the group loop appends headers and group runs |
| MasterLayout.MasterCanvas.PlaceSubjects | cSLO_image_compilation_v2.py:2259-2289 | the group loop when there is a group order, otherwise one run over all subjects |
| MasterLayout.MasterCanvas.FindExtent | cSLO_image_compilation_v2.py:2293-2306 | the running-max loop computes the extent |
| MasterLayout.MasterCanvas.CreateMasterCanvas | cSLO_image_compilation_v2.py:2066-2307 | the elements are the layout and the size is their extent |
| EarTags.AfterFirst | cSLO_image_compilation_v2.py:544-545 | `s.split(sep, 1)[1]` is the text after the first occurrence; an empty separator is a ValueError |
| EarTags.DepunctuateChars | cSLO_image_compilation_v2.py:549 | after the three replaces no '_', ',' or '.' is left, and every other character is kept |
| EarTags.CleanForm | cSLO_image_compilation_v2.py:549-550 | the cleaned text has no '_', ',' or '.', no leading, trailing or repeated space, and no other whitespace |
| EarTags.CleanIdempotent | cSLO_image_compilation_v2.py:549-550 | cleaning a cleaned text changes nothing |
| EarTags.EarTagNumberSpec | cSLO_image_compilation_v2.py:543-550 | the number is the cleaned text after the first occurrence of the folder name, or the whole cleaned text when it does not occur; only an empty folder name fails (also test.py:1158-1166) |
| EarTags.EarTagNumberForm | cSLO_image_compilation_v2.py:543-550 | every ear-tag number has the cleaned form |
| EarTags.AddScan | cSLO_image_compilation_v2.py:506-552 | a skipped folder leaves the table; a read one sets its entry |
| EarTags.EarTagTableKeys | cSLO_image_compilation_v2.py:506-552 | the table has an entry exactly for the folders that were read |
| EarTags.EarTagTableValues | cSLO_image_compilation_v2.py:506-552 | each entry is the number of the last read scan of that folder |
| EarTags.EarTagTableFailed | cSLO_image_compilation_v2.py:545 | an exception ends the scan |
| EarTags.DetermineEarTags | cSLO_image_compilation_v2.py:501-553 | the folder loop computes the table (also test.py:1116-1169) |
| LegacyCompilation.KeptInMembers | cSLO_image_compilation.py:20-26 | a path of one directory is kept exactly when it joins the root with a file ending in '.tif' and containing 'BAF' or 'IRAF' |
| LegacyCompilation.KeptMembers | cSLO_image_compilation.py:20-26 | over the whole walk, a path is kept exactly when some directory holds a file that passes the filter and the path joins the two |
| LegacyCompilation.KeptNamesPass | cSLO_image_compilation.py:20-26 | the basename of each kept path passes the filter |
| LegacyCompilation.FindImageFiles | cSLO_image_compilation.py:20-26 | the walk loop collects exactly the kept paths, in walk order |
| LegacyCompilation.CenterTextCentred | cSLO_image_compilation.py:32-37 | the text's centre is within one unit of the centre of [x1, x2] (also test3.py:405-410) |
| LegacyCompilation.CenterTextFits | cSLO_image_compilation.py:32-37 | a text no wider than the interval lies inside it |
| LegacyCompilation.TopOffset | cSLO_image_compilation.py:221-229 | the top of the first row is 700, less 250 without a title and 70 without a subtitle, so it lies between 380 and 700 |
| LegacyCompilation.DocumentSizeOk | cSLO_image_compilation.py:217-232 | width = columns * (2w + 45) + 400 and height = 2h * rows + (rows - 1) * 400 + y_offset + 100 (also test.py:1284-1296) |
| LegacyCompilation.ExampleImage | cSLO_image_compilation.py:210 | `image_files[0]`: an IndexError exactly for no files, otherwise one of them |
| LegacyCompilation.DraftExampleImage | test.py:1265-1276 | no example (the program exits) exactly when there are no cSLO and no OCT paths; otherwise the first cSLO path, else the first OCT path |
| LegacyCompilation.Named | cSLO_image_compilation.py:263-266 | the files whose basename contains a text |
| LegacyCompilation.NamedMembers | cSLO_image_compilation.py:263-266 | a file is a candidate exactly when its basename contains the mouse id |
| LegacyCompilation.Present | cSLO_image_compilation.py:286 | dropping the `None`s keeps exactly the present files |
| LegacyCompilation.PresentMembers | cSLO_image_compilation.py:286 | a file is in the filtered list exactly when it was picked |
| LegacyCompilation.PicksLength | cSLO_image_compilation.py:271-281 | at most one pick per image type |
| LegacyCompilation.SelectionAtMostFour | cSLO_image_compilation.py:268-286 | a mouse never gets more than four files |
| LegacyCompilation.PicksWithoutAmbiguity | cSLO_image_compilation.py:277-281 | the chooser matters only for a type with more than one match |
| LegacyCompilation.SelectionWithoutAmbiguity | cSLO_image_compilation.py:268-286 | when no needed type has more than one matching candidate, the chooser plays no part |
| LegacyCompilation.PicksFromCandidates | cSLO_image_compilation.py:272-281 | every pick is a candidate of its type when the chooser picks among what it is shown |
| LegacyCompilation.SelectionFromCandidates | cSLO_image_compilation.py:262-286 | every selected file is a candidate of the mouse |
| LegacyCompilation.FilesNamed | cSLO_image_compilation.py:263-266 | the loop collects the files named after the mouse |
| LegacyCompilation.SelectFiles | cSLO_image_compilation.py:263-286 | the loop computes the selection |
| LegacyCompilation.PickFor | cSLO_image_compilation.py:273-281 | one pass of the type loop keeps the single file of that type, or the chosen one of several, or nothing |
| LegacyCompilation.QuadrantPlaces | cSLO_image_compilation.py:312-325 | an OD file goes at x and an OS file at x + w, BAF at y and IRAF at y + h; a file with neither OD nor OS is not placed |
| LegacyCompilation.PasteAllInBlock | cSLO_image_compilation.py:312-325 | every paste of a mouse lies in its 2w x 2h block |
| LegacyCompilation.PasteOne | cSLO_image_compilation.py:313-325 | the loop body places one file |
| LegacyCompilation.PasteFiles | cSLO_image_compilation.py:312-328 | the loop places all the mouse's files |
| LegacyCompilation.AdvanceClosed | cSLO_image_compilation.py:330-334 | advancing the cursor of mouse j gives the closed form of mouse j + 1 |
| LegacyCompilation.CursorClosedForm | cSLO_image_compilation.py:330-337 | after k mice the column is k % columns and the top is y0 + (k / columns) * (2h + 400) |
| LegacyCompilation.StepsAt | cSLO_image_compilation.py:262-337 | the k-th mouse's captions and pastes follow the first k mice's, drawn at the k-th cursor |
| LegacyCompilation.PasteCorner | cSLO_image_compilation.py:288-325 | each paste of mouse k sits at a corner of its block: column k % columns, top y0 + (k / columns) * (2h + 400) |
| LegacyCompilation.CornersPlaced | cSLO_image_compilation.py:217-337 | for the computed document size, a block corner of mouse k < rows * columns lies inside the document and one of a later mouse below its bottom edge |
| LegacyCompilation.ImagesPlaced | cSLO_image_compilation.py:217-337 | for the computed document size, a paste of mouse k < rows * columns lies inside the document |
| LegacyCompilation.RowTops | cSLO_image_compilation.py:232-334 | a row below the row count starts inside the height, one at or past it at or below the bottom |
| LegacyCompilation.CompilationShape | cSLO_image_compilation.py:208-337 | a compiled document has the computed size and its marks are the heading followed by every mouse's steps |
| LegacyCompilation.CompiledMouse | cSLO_image_compilation.py:262-337 | each mouse's marks appear in the document at its cursor |
| LegacyCompilation.CompiledImagesPlaced | cSLO_image_compilation.py:217-337 | the pastes of the first rows * columns mice lie inside the document, later ones below it |
| LegacyCompilation.DrawBlock | cSLO_image_compilation.py:288-325 | the per-mouse captions and pastes |
| LegacyCompilation.NextBlock | cSLO_image_compilation.py:330-337 | the column advance, and the BAF/IRAF captions when a row wraps |
| LegacyCompilation.DrawMice | cSLO_image_compilation.py:262-337 | the mouse loop computes every mouse's marks |
| LegacyCompilation.CompileImages | cSLO_image_compilation.py:208-337 | the method computes the compiled document |

## Findings

| source | as written | input that shows it | evidently intended | confidence | as-written member | corrected member |
|---|---|---|---|---|---|---|
| cSLO_image_compilation_v2.py:1043 | the OCT type offered is `"OCT " + image_file.split("_")[2]`, on the file name with its extension | `M1_OD_horizontal.tif` is offered as 'OCT horizontal.tif', while `convert_path_to_base_name_and_parts` reads its modality as 'horizontal', so the requested type matches no file | read the third field of the base name, as everywhere else | not executed | Availability.OctTypeAsWrittenKeepsExtension | Availability.OctTypeOfFile |

The same line is at test.py:791. The rest of the model (`OctTypes`,
`DetermineWhatImagesAreAvailable`) uses the corrected `Availability.OctType`.

## Left out

- The tkinter dialogs: the settings frames, drag reordering, entry colouring, the picker window. The picker is a function parameter (`Chooser`); the entry boxes are strings in `RowColumnFrame`.
- File system discovery (`os.listdir`, `os.walk`, `os.path.isdir`, `create_list_of_all_image_paths`, `list_mice`): the discovered names are inputs (`WalkDir`, `Directory`, `FolderScan`, path lists). For a cSLO directory of `determine_what_images_are_available`, the files are those already found in its OD and OS folders.
- Loading the example images that set the image width and the cSLO/OCT slot sizes, with their own resizing: the sizes are inputs (`Setup`).
- Image files: opening is a function parameter (`Opener`) that yields a size, a brightness profile and a statistic. It cannot fail in the model.
- The OCR engine (EasyOCR `readtext`) and the OpenCV reading and cropping of the image it reads: the detected texts are an input, and a folder that is skipped (no OD/OS folder, no image, unreadable image) is given as `None`.
- Floating-point statistics of `find_oct_retina_bounds` (95th percentile, mean, standard deviation): the row profile and the statistic are integer inputs.
- Other floating-point steps: the 70% crop width of the OCR region, the 0.95 shrink loop of the picker window, and the percent-done rounding.
- SubjectCanvas.Resize: `int(new_width * h / w)` is taken as the exact rational value rounded down, without floating-point rounding error.
- Grid.IntSqrt: `math.floor`/`math.ceil` of `math.sqrt` are taken as the exact integer square root and its ceiling; floating-point rounding of `math.sqrt` is not modelled.
- Text.ParseInt: `int()` is modelled for ASCII digits with optional sign and surrounding whitespace; underscores between digits and non-ASCII digits are not accepted. Likewise `\d` in the ordinal pattern of `from_tuple` (`ImageTypes.FindOrdinal`, `Text.IsDigit`) matches only the ASCII digits, where Python's matches any Unicode decimal digit.
- FileNames.BasenameSpec: states the POSIX `os.path.basename`, the text after the last '/'. On Windows `basename` also splits at '\\' and after a drive letter, so for `C:/d\M1\OD\1_M1_OD_BAF.tif` the program reads image number "1" where the model's base name is `d\M1\OD\1_M1_OD_BAF`.
- FileNames.Basename and LegacyCompilation.PathJoin: paths are POSIX paths. `os.path.join` joins with '/', and the Windows separator '\\' and drive letters are not modelled, although the program's default output path (`C:/Users/...`, cSLO_image_compilation_v2.py:1600) is a Windows one.
- Text.Lower: `lower()`/`upper()` change only ASCII letters.
- Text.IsSpace: whitespace is the ASCII and Unicode set of `str.isspace`; no other Unicode property is modelled.
- PIL rendering: resampling, pixel pasting, colours and font loading. A font is its `getbbox` function; `draw.textbbox` is taken to equal `font.getbbox`.
- The "No preview available" text drawn on a placeholder in mode 'preview_layout_and_images' (v2 lines 2024-2031): it only paints inside the placeholder and changes no size or position.
- test3.py's draft selection loop skips a slot whose imager has no list or an empty list (test3.py:354-359). The model follows cSLO_image_compilation_v2.py: an empty list gives no file and a placeholder, and an imager with no list is a KeyError.
- SubjectCanvas.Assemble: the lab id is a parameter rather than a lookup in `mouse_info_dic` (v2 lines 1895 and 1906); the lookup and its KeyError are modelled one level up, in `LayoutCanvases.CanvasOf`.
- pandas editing of the subject table: the table (`mouse_info_dic`) is an input.
- The percent-done and `status` printing, `exit()`, saving and showing the result, and the module-level orchestration.
- `number_of_rows` of the master layout is read but never affects placement, so the model has no such parameter.
- MasterLayout.Canvases: the layout functions and `MasterCanvas` take the subject canvases as a function parameter. `LayoutCanvases.Canvases` is the function built from `SubjectCanvas.Assemble`, and `LayoutCanvases.SubjectGrid` applies the grid lemmas to it. A subject named "return_canvas_only" gets the blank image area and is taken to leave the heading height given as `previous`, rather than the one of the subject assembled before it.
- MasterLayout.MasterCanvas.PlaceGroupsLoop: the group loop takes the per-group assembler as a function value instead of calling the `AssembleIntoLayout` method. `PlaceSubjects` passes it `Assembly`, the function that `AssembleIntoLayout` is proved against, and `AssembleRunFaithful` states what it places.
- LegacyCompilation.CompiledImagesPlaced: every pasted image is taken to have the size of the example image, as the document size formula assumes.
- In `compile_images` of cSLO_image_compilation.py the BAF/IRAF captions are centred vertically using the text's width (`center_text_between_images` measures width); the model does the same.
- test3.py's `determine_which_cslo_image_to_use` and `old_determine_which_cslo_image_to_use` are never called and do not work as written; they are not modelled, nor are test3.py's stub stages.
