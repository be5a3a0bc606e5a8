# Comet core, modelled in Dafny

This project models the sequential cores of the Comet C++ COM library and its tools, and proves what they promise. Each model file follows one part of the source:

- `tlb2h_text.dfy`, `tlb2h_namespaces.dfy`, `tlb2h_library.dfy`, `tlb2h_emit.dfy`, `tlb2h_params.dfy` and `vartype.dfy` cover the type-library-to-header generator `tlb2h`. They model:
  - the string helpers `escape_backslash`, `make_guid` slicing, `strip_whitespace` and the split of a resource specifier;
  - the `NamespaceOptions` symbol table;
  - the `LibraryOptions` include/exclude set and the symbol file's line rules;
  - the `output_typelist_t` emitter and the one-shot prefix writers;
  - `Parameter::get_direction` and `Interface::add_prop`;
  - `vt2string` and `vt2refmacro`, the VARTYPE printers.
- `stream.dfy` covers `adapted_stream`, the IStream adapter over a standard stream. The stream is a byte sequence with get and put positions and in/out capabilities. The model includes:
  - the byte-counting copy loops;
  - the three stream traits, including the single head of the iostream traits;
  - the HRESULT rules of `Read`, `Write`, `Seek`, `SetSize` and `CopyTo`.
- `stl_enum.dfy` and `enum_legacy.dfy` cover the `IEnumVARIANT` cursors over a container (`Next`, `Reset`, `Skip`, `Clone`) and the `variant_iterator`/`itf_iterator` wrappers.
- `autoexp.dfy` covers the debugger visualiser helpers:
  - the day-number-to-Gregorian conversion;
  - the `DateOnly` sentinels and weekday;
  - the string escaper;
  - the VARTYPE formatters.
- `lscache.dfy` covers the ASP `LSCache` object: items with sub-maps and stamps, a stamp-ordered heap, and the collector.
- `wizard_script.dfy` and `comet_aw.dfy` cover the project wizards:
  - the template-manifest walk of the script wizard, with its target names and copy-only test;
  - the symbols and GUID text of the AppWizard.
- `collections.dfy` covers the small collection examples: a variant set, a variant map, an object map, a parent with children, and the dynamic-dispatch demo.
- `common.dfy` holds shared helpers: `Result`/`Option`, fixed-width hexadecimal, decimal and 32-bit wrap-around.

Where the source mutates an object's fields, the model is a class whose methods are proved against pure specification functions. Lemmas state the properties of those functions. Where verification showed the source contradicts its own evident intent, the "as written" behaviour is modelled next to a corrected one (see "## Findings").

`main.cpp` is renamed after the wizard's `PROJECT_NAME` symbol plus ".cpp" (default.js:267-268). The other renamed templates take the project-name argument; at the script's one call site (default.js:6, :13) that argument is the same `PROJECT_NAME` symbol, so the two coincide there.

## Model

| member | source | states |
|---|---|---|
| Common.HexRoundTrip | src/CometWizard/CometAw.cpp:33-37 | a zero-padded fixed-width hexadecimal field, in either letter case, reads back as the number whenever the number fits the width |
| Tlb2hText.EscapeBackslash | src/tlb2h/tlb2h.cpp:308-331 | the loop returns the input with each of BEL, BS, FF, LF, CR, TAB, VT, `?`, `'`, `"` and `\` replaced by a backslash escape and every other character copied; the result is longer by exactly the number of escaped characters |
| Tlb2hText.EscapeRoundTrip | src/tlb2h/tlb2h.cpp:308-331 | escaping loses nothing: reading the escaped text back as a C literal gives the original string |
| Tlb2hText.Substr | src/tlb2h/tlb2h.cpp:346-354 | `substr(pos, n)` throws exactly when `pos` is past the end, and otherwise takes `min(n, size - pos)` characters from `pos` |
| Tlb2hText.Pieces | src/tlb2h/tlb2h.cpp:343-358 | the substrings `make_guid` takes, one per (offset, width) pair, or the first substr error |
| Tlb2hText.PiecesSpec | src/tlb2h/tlb2h.cpp:343-358 | the pieces are taken exactly when every offset lies within the text, and then each piece is the text's characters at its offset |
| Tlb2hText.MakeGuidPieces | src/tlb2h/tlb2h.cpp:343-358 | `make_guid` throws exactly when the text has fewer than 34 characters; for a registry-form GUID of 36 characters the eleven pieces are the hex groups, with the hyphens at 8, 13, 18 and 23 left out |
| Tlb2hText.GuidPiecesBounds | src/tlb2h/tlb2h.cpp:346-354 | the eleven (offset, width) pairs all lie within 36 characters, and the last starts at 34 |
| Tlb2hText.TrimEnd | src/tlb2h/tlb2h.cpp:232-233 | the length kept by `find_last_not_of(" \t")`: only blanks follow it, and the character before it is not a blank |
| Tlb2hText.LeadingBlanks | src/tlb2h/tlb2h.cpp:235 | the length of the leading run of spaces and tabs found by `find_first_not_of` |
| Tlb2hText.StripWhitespaceText | src/tlb2h/tlb2h.cpp:230-240 | an all-blank string strips to nothing; otherwise the result is the text up to its last non-blank character, starting at its first non-blank character, or at the blank just before it when it has leading blanks |
| Tlb2hText.StripNotAllBlank | src/tlb2h/tlb2h.cpp:230-240 | for a string with a non-blank character, the last non-blank lies after the first, and the result is the text between them, with one blank kept in front when there are leading blanks |
| Tlb2hText.StripKeepsUnpadded | src/tlb2h/tlb2h.cpp:230-240 | a string that neither starts nor ends with a blank is left as it is |
| Tlb2hText.LeadingBlanksPrefix | src/tlb2h/tlb2h.cpp:237 | cutting the text after its first non-blank character keeps its count of leading blanks |
| Tlb2hText.StripWhitespaceShape | src/tlb2h/tlb2h.cpp:230-240 | stripping empties an all-blank string, removes every trailing blank, changes no text without leading blanks, and leaves one blank of a leading run because `replace(0, pos-1, "")` erases one character too few |
| Tlb2hText.StripLeadingBlanks | src/tlb2h/tlb2h.cpp:235-239 | a word after k >= 1 leading blanks comes out with exactly one blank before it |
| Tlb2hText.LastSeparator | src/tlb2h/tlb2h.cpp:7708 | `find_last_of("\\/")`: the position of a separator with none after it, or none at all |
| Tlb2hText.SplitResourceRebuilds | src/tlb2h/tlb2h.cpp:7706-7717 | an input name is cut at its last separator exactly when everything after it is decimal digits; the name and specifier then rebuild the input, and otherwise the name is kept whole with an empty specifier |
| Tlb2hNamespaces.Lookup | src/tlb2h/tlb2h.cpp:110-118 | `trans_symbol`: the mapped name when the table has an entry, the name itself otherwise |
| Tlb2hNamespaces.InterfaceMethodOrder | src/tlb2h/tlb2h.cpp:133-148 | the qualified "Iface.method" entry wins, then the bare method's entry, then the method name unchanged |
| Tlb2hNamespaces.MappingLine | src/tlb2h/tlb2h.cpp:255-274 | a line gives a mapping exactly when it contains a '=' |
| Tlb2hNamespaces.MappingLineSplit | src/tlb2h/tlb2h.cpp:255-265 | the line splits at its first '=': later '=' signs stay in the stripped right-hand side |
| Tlb2hNamespaces.NamespaceLinesKeepKeys | src/tlb2h/tlb2h.cpp:276-293 | loading namespace lines only adds or overwrites entries: no key is lost |
| Tlb2hNamespaces.IgnoredLines | src/tlb2h/tlb2h.cpp:285-290 | empty lines, lines starting with ';' or '#' after stripping, and lines without '=' leave the table unchanged |
| Tlb2hNamespaces.NamespaceOptions.constructor | src/tlb2h/tlb2h.cpp:104 | an empty table and names, namespaces not ignored, not inside a namespace, no required libraries |
| Tlb2hNamespaces.NamespaceOptions.AddNamespaceMapping | src/tlb2h/tlb2h.cpp:241-244 | the entry is set, `trans_symbol` of its key gives the new value, and every other translation is unchanged |
| Tlb2hNamespaces.NamespaceOptions.ForeignNamespace | src/tlb2h/tlb2h.cpp:150-161 | the current namespace for the library's own name, otherwise the translated name |
| Tlb2hNamespaces.NamespaceOptions.TranslateForeignNamespace | src/tlb2h/tlb2h.cpp:162-172 | the library's own name is first replaced by the current namespace and the table is then applied to the result |
| Tlb2hNamespaces.NamespaceOptions.ForeignAgainstTranslate | src/tlb2h/tlb2h.cpp:150-172 | the two translations agree on every name but the library's own, where the in-place one also maps the namespace through the table |
| Tlb2hNamespaces.NamespaceOptions.SetLibraryName | src/tlb2h/tlb2h.cpp:173-178 | the library name is set last, so the namespace is the table's translation of it (the old namespace for an empty name) |
| Tlb2hNamespaces.NamespaceOptions.SetNamespaceName | src/tlb2h/tlb2h.cpp:180-184 | an empty name is ignored |
| Tlb2hNamespaces.NamespaceOptions.GetNs | src/tlb2h/tlb2h.cpp:190-198 | the type's library name translated as by `translate_foreign_namespace` |
| Tlb2hNamespaces.NamespaceOptions.GetNameWithNs | src/tlb2h/tlb2h.cpp:200-223 | a null type throws; otherwise the prefixed translated name, bare when namespaces are ignored or the type is in the current namespace, `::name` for stdole and `ns::name` otherwise, adding `ns` to the required libraries only when it differs from the current namespace |
| Tlb2hNamespaces.NamespaceOptions.EnterNamespace | src/tlb2h/tlb2h.cpp:225 | the nesting count goes up by one |
| Tlb2hNamespaces.NamespaceOptions.LeaveNamespace | src/tlb2h/tlb2h.cpp:226 | the nesting count goes down by one |
| Tlb2hNamespaces.NamespaceOptions.IgnoreNamespace | src/tlb2h/tlb2h.cpp:228 | sets the ignore flag |
| Tlb2hNamespaces.NamespaceOptions.GetNamespaceEntry | src/tlb2h/tlb2h.cpp:245-253 | the mapped name, or the empty string without an entry |
| Tlb2hNamespaces.NamespaceOptions.AddNamespaceMappingLine | src/tlb2h/tlb2h.cpp:255-274 | adds the stripped halves of the line exactly when it contains '=' and reports whether it did |
| Tlb2hNamespaces.NamespaceOptions.LoadNamespaceLines | src/tlb2h/tlb2h.cpp:276-293 | an unreadable file changes nothing; otherwise the table is that after applying each line in order |
| Common.Hex | src/CometAutoExp/CometAutoExp.cpp:293 | a `setw(width) << setfill('0')` hexadecimal field is exactly `width` characters long |
| Common.Upper | src/CometWizard/CometAw.cpp:67 | upper-casing keeps the length and maps each character on its own, lower-case ASCII letters to upper case and everything else unchanged |
| Common.DecimalDigits | src/CometAutoExp/CometAutoExp.cpp:963 | a natural number's text is all digits, has no leading zero except for 0 itself, and reads back as the number |
| Common.DecimalRoundTrip | src/CometAutoExp/CometAutoExp.cpp:963 | an integer's text starts with '-' exactly when it is negative, is digits after that, and reads back as the integer |
| AutoExp.TDiv | src/CometAutoExp/CometAutoExp.cpp:918-923 | the C++ `/` on `long`, truncating toward zero, agrees with floor division for a non-negative dividend |
| AutoExp.TRem | src/CometAutoExp/CometAutoExp.cpp:959 | the C++ `%`: its magnitude stays below the divisor, it matches the Euclidean remainder for a non-negative dividend, and dividend = divisor * quotient + remainder |
| AutoExp.U16 | src/CometAutoExp/CometAutoExp.cpp:924-926 | the `unsigned short` cast gives a value below 65536 and leaves a value that fits unchanged |
| AutoExp.DateFromAbsdate | src/CometAutoExp/CometAutoExp.cpp:913-928 | `date_from_absdate_` always reports success, whatever the day number |
| AutoExp.StepsNoWrap | src/CometAutoExp/CometAutoExp.cpp:917-923 | for a day number from -32044 up to the overflow bound no 32-bit step wraps, and every truncating division equals the floor division of the unbounded algorithm |
| AutoExp.DateFromAbsdateIsCivil | src/CometAutoExp/CometAutoExp.cpp:913-928 | below the overflow bound the 32-bit conversion returns the unbounded Gregorian date, cast to `unsigned short` |
| AutoExp.DateFromAbsdateRanges | src/CometAutoExp/CometAutoExp.cpp:922-925 | whenever day number + 32044 is non-negative and no step overflows, the result is a success with the month in 1..12 and the day in 1..31 |
| AutoExp.CivilRanges | src/CometAutoExp/CometAutoExp.cpp:922-925 | the unbounded algorithm gives a month in 1..12 and a day in 1..31 for every day number from -32044 up to 2^31 - 32044 |
| AutoExp.DateFromAbsdateWraps | src/CometAutoExp/CometAutoExp.cpp:917-925 | past the overflow bound the 32-bit steps wrap: day number 2147451603 yields month 10883 |
| AutoExp.DateFromAbsdateY2k | src/CometAutoExp/CometAutoExp.cpp:913-927 | day number 2451545 is 1 January 2000 |
| AutoExp.CivilRoundTrip | src/CometAutoExp/CometAutoExp.cpp:913-927 | the conversion loses nothing: the Julian-day-number formula applied to the date it gives returns the day number |
| AutoExp.DateFromAbsdateRoundTrip | src/CometAutoExp/CometAutoExp.cpp:913-927 | where no step overflows and the year fits an `unsigned short`, the date the source returns maps back to the day number it was given |
| AutoExp.WeekdayIndex | src/CometAutoExp/CometAutoExp.cpp:959-960 | the corrected weekday index always addresses one of the seven entries of the weekday table |
| AutoExp.WeekdayAsWrittenOutOfTable | src/CometAutoExp/CometAutoExp.cpp:959-963 | as written, `(DateOnly + 1) % 7L` is -1 for day number -2, an index before the start of the weekday table |
| AutoExp.WeekdayAsWrittenNegative | src/CometAutoExp/CometAutoExp.cpp:959 | as written, every day number below -1 whose successor is not a multiple of 7 gives a negative weekday index |
| AutoExp.WeekdayIndexRules | src/CometAutoExp/CometAutoExp.cpp:959-960 | the corrected index equals the source's for every day number from -1 up, and each next day moves the weekday on by one modulo 7 |
| AutoExp.Truncate | src/CometAutoExp/CometAutoExp.cpp:965-966 | `strncpy` plus the closing NUL at `maxlen - 1` keep exactly the first `min(length, maxlen - 1)` characters |
| AutoExp.DateOnlyRules | src/CometAutoExp/CometAutoExp.cpp:930-968 | E_FAIL exactly when the memory read fails, and only then no text; 0 shows "zero", 2147483647 "invalid", the long matching 2147483648 "null"; any other day shows a prefix of "year.mon.mday wd" cut to the buffer, where wd comes from the corrected weekday index `WeekdayIndex` (see the finding at CometAutoExp.cpp:959) |
| AutoExp.DateOnlyShowsDate | src/CometAutoExp/CometAutoExp.cpp:954-966 | a day number that is no sentinel gives S_OK and the date text with its weekday, cut to the buffer; the weekday is the corrected `WeekdayIndex`, not the source's expression (see the finding at CometAutoExp.cpp:959) |
| AutoExp.DateOnlyY2k | src/CometAutoExp/CometAutoExp.cpp:954-966 | day number 2451545 shows as "2000.1.1 Sa" when the buffer holds it |
| AutoExp.StringAsString | src/CometAutoExp/CometAutoExp.cpp:286-319 | the loop always succeeds and its text is the concatenation of the escapes of the code units, in order |
| AutoExp.EscapeRules | src/CometAutoExp/CometAutoExp.cpp:292-313 | a code above 255 becomes "\x" plus 4 hex digits of the code; the ten named controls a backslash pair ("\n" followed by a real newline); any other code up to 27 "\x" plus 2 hex digits; every other code is copied |
| AutoExp.StringAsStringAppend | src/CometAutoExp/CometAutoExp.cpp:289-316 | escaping a concatenation gives the concatenation of the escapes |
| AutoExp.UnescapeStep | src/CometAutoExp/CometAutoExp.cpp:294-313 | each escape of a code up to 255 reads back to that code, whatever text follows it |
| AutoExp.StringAsStringRoundTrip | src/CometAutoExp/CometAutoExp.cpp:286-319 | for text without codes above 255 the escaping loses nothing: reading it back gives the input |
| AutoExp.Widen | src/CometAutoExp/CometAutoExp.cpp:291 | for the `char*` instantiation, `wchar_t ch = *it` keeps a byte below 0x80 and turns a byte from 0x80 up into that byte plus 0xFF00 (sign extension of a signed `char`, then the 16-bit `wchar_t`) |
| AutoExp.WidenEscape | src/CometAutoExp/CometAutoExp.cpp:291-293 | a widened byte from 0x80 up takes the `ch > 255` branch and is written as "\xff" and its two hex digits; any other byte is escaped as the same wide code |
| AutoExp.StringAsStringNarrow | src/CometAutoExp/CometAutoExp.cpp:810-814 | `string_Eval`'s narrow text is escaped byte by byte as `NarrowText` says: every byte from 0x80 up as "\xff" and two hex digits |
| AutoExp.NarrowLatinSmallEAcute | src/CometAutoExp/CometAutoExp.cpp:810-814 | the Latin-1 byte 0xE9 (é) in a narrow string prints as "\xffe9" |
| AutoExp.StringAsStringAmbiguous | src/CometAutoExp/CometAutoExp.cpp:292-311 | with codes above 255 the output is ambiguous: the codes 1, '0', '0' and the single code 256 both print as "\x0100" |
| AutoExp.VtAsString | src/CometAutoExp/CometAutoExp.cpp:452-480 | `vt_as_string` prints what `vt2string` prints, and "?VARTYPE?" where `vt2string` would throw |
| AutoExp.VtAsStringRules | src/CometAutoExp/CometAutoExp.cpp:461-479 | a reserved VARTYPE prints "?VARTYPE?"; "?VARTYPE?" appears exactly when the masked switch value names no base type; otherwise the text is bracketed exactly when VECTOR, ARRAY or BYREF joined the base name |
| AutoExp.DescFromVartype | src/CometAutoExp/CometAutoExp.cpp:186-246 | the stream steps produce the corrected description function |
| AutoExp.DescWrapsBase | src/CometAutoExp/CometAutoExp.cpp:190-244 | for a non-reserved type the description is the openers "VECTOR(" and "SAFEARRAY(", then the base type's description, then "*" for BYREF, then exactly one ")" when either opener was written |
| AutoExp.DescByrefUnknownAsWritten | src/CometAutoExp/CometAutoExp.cpp:210-215 | as written, a by-reference IUnknown with no extra text is described as "IDispatch **", because the test compares the whole VARTYPE with VT_UNKNOWN |
| AutoExp.DescAsWrittenDiffers | src/CometAutoExp/CometAutoExp.cpp:198-216 | the as-written and corrected descriptions differ exactly for a non-reserved VT_UNKNOWN carrying a flag bit and no extra text |
| VarType.OrFoldJoins | src/tlb2h/tlb2h.cpp:5908-5921 | folding `or_append` over the parts joins the non-empty ones with a vertical-bar separator, and the flag ends up set exactly when at least two were joined |
| VarType.OrFoldSnoc | src/tlb2h/tlb2h.cpp:5908-5921 | one more `or_append` extends the fold by that part |
| VarType.Vt2String | src/tlb2h/tlb2h.cpp:5929-5989 | the step-by-step `vt2string` gives the reference result: VECTOR, ARRAY, RESERVED, the base name and BYREF joined with a vertical-bar separator, bracketed when at least two were joined, and "Unknown VARTYPE" when the masked switch value names no base type |
| VarType.ReservedThrows | src/tlb2h/tlb2h.cpp:5938-5985 | any VARTYPE with the reserved bit throws "Unknown VARTYPE", because the switch masks only VECTOR, ARRAY and BYREF |
| VarType.Vt2StringBracketing | src/tlb2h/tlb2h.cpp:5987-5988 | a printed VARTYPE is bracketed exactly when a flag (VECTOR, ARRAY or BYREF) joined the base name |
| VarType.ReservedNotInParts | src/tlb2h/tlb2h.cpp:5938-5985 | a successful `vt2string` never had the reserved bit set |
| VarType.Vt2RefMacro | src/tlb2h/tlb2h.cpp:5991-6039 | an array gives V_ARRAY, or V_ARRAYREF when by reference; any macro returned starts with "V_" |
| VarType.RefMacroTwins | src/tlb2h/tlb2h.cpp:5997-6036 | for every base type with an accessor macro, its by-reference form has the same macro with "REF" appended |
| Tlb2hLibrary.IncludeExcludeExpose | src/tlb2h/tlb2h.cpp:4563-4594 | after `include_symbol(s)` the symbol is exposed and after `exclude_symbol(s)` it is not, in either mode, and no other symbol changes membership |
| Tlb2hLibrary.RunLength | src/tlb2h/tlb2h.cpp:4602 | the first delimiter (blank, tab, ',' or ':') of the text, or its end: no delimiter before it |
| Tlb2hLibrary.TokensWellFormed | src/tlb2h/tlb2h.cpp:4598-4610 | every symbol `parse_symbols` takes from an argument is non-empty and holds no delimiter |
| Tlb2hLibrary.TokensSkip | src/tlb2h/tlb2h.cpp:4598-4600 | leading delimiters do not change the symbols found |
| Tlb2hLibrary.TokensRun | src/tlb2h/tlb2h.cpp:4602-4609 | a run of non-delimiters ended by a delimiter or the end of the text is exactly one symbol, found before the rest |
| Tlb2hLibrary.TokensOfJoin | src/tlb2h/tlb2h.cpp:4595-4612 | a comma-separated list of well-formed symbols gives back exactly that list |
| Tlb2hLibrary.FirstDelim | src/tlb2h/tlb2h.cpp:4602 | `find_first_of(" \t,:", from)`: the first delimiter at or after `from`, or the end |
| Tlb2hLibrary.FirstNotDelim | src/tlb2h/tlb2h.cpp:4598-4600 | `find_first_not_of(" \t,:", from)`: the first non-delimiter at or after `from`, or the end |
| Tlb2hLibrary.TokensStep | src/tlb2h/tlb2h.cpp:4600-4609 | one round of the loop takes the symbol starting at the mark and then skips the delimiters after it |
| Tlb2hLibrary.SymbolLineRules | src/tlb2h/tlb2h.cpp:4624-4641 | after trailing blanks and tabs are trimmed: an empty or comment (';', '#') line changes nothing; a '*' or '~' line sets exactly its symbol's option and adds the symbol only in inclusive mode; any other line adds itself; a line trims to empty exactly when it is all blanks and tabs |
| Tlb2hLibrary.ExclusiveAddsOnlyUnmarked | src/tlb2h/tlb2h.cpp:4626-4640 | in exclusive mode every symbol a file adds appears, trimmed, as an unmarked line |
| Tlb2hLibrary.SymbolLinesKeepOptions | src/tlb2h/tlb2h.cpp:4634-4635 | options recorded by the symbol file are never dropped by later lines |
| Tlb2hLibrary.OutputFilename | src/tlb2h/tlb2h.cpp:4537-4555 | in directory mode the output path, then a '\' unless the path is empty or already ends in '\' or '/', then the library name and extension; otherwise the output file unchanged |
| Tlb2hLibrary.LibraryOptions.constructor | src/tlb2h/tlb2h.cpp:4486-4491 | exclusive mode with no symbols, so every symbol is exposed, and output into a directory |
| Tlb2hLibrary.LibraryOptions.SetLibraryName | src/tlb2h/tlb2h.cpp:4493 | sets the library name |
| Tlb2hLibrary.LibraryOptions.SetOutputFile | src/tlb2h/tlb2h.cpp:4531-4535 | sets the output file and the directory flag |
| Tlb2hLibrary.LibraryOptions.MakeOutputFilename | src/tlb2h/tlb2h.cpp:4537-4555 | the output file name of the current options |
| Tlb2hLibrary.LibraryOptions.HasExclude | src/tlb2h/tlb2h.cpp:4557-4561 | true exactly in inclusive mode or when the set is non-empty; when false every symbol is exposed |
| Tlb2hLibrary.LibraryOptions.ServerWrapperFor | src/tlb2h/tlb2h.cpp:4568-4573 | only a symbol with recorded options can be a server wrapper |
| Tlb2hLibrary.LibraryOptions.StubOnlyFor | src/tlb2h/tlb2h.cpp:4574-4579 | only a symbol with recorded options can be stub-only |
| Tlb2hLibrary.LibraryOptions.IncludeSymbol | src/tlb2h/tlb2h.cpp:4581-4587 | erases the symbol in exclusive mode and inserts it in inclusive mode, after which it is exposed |
| Tlb2hLibrary.LibraryOptions.ExcludeSymbol | src/tlb2h/tlb2h.cpp:4588-4594 | erases the symbol in inclusive mode and inserts it in exclusive mode, after which it is not exposed |
| Tlb2hLibrary.LibraryOptions.ParseSymbols | src/tlb2h/tlb2h.cpp:4595-4612 | switches to inclusive mode and adds every maximal run of non-delimiters in the argument to the symbols |
| Tlb2hLibrary.LibraryOptions.LoadSymbols | src/tlb2h/tlb2h.cpp:4613-4651 | sets the mode and clears the symbols before opening the file; a missing file throws "Unable to open symbol file: '<name>'" with the symbols left cleared; otherwise the lines are applied in order to the cleared symbols and the kept options |
| Tlb2hEmit.Ended | src/tlb2h/tlb2h.cpp:388-400 | `end()` resets count, elements and closers, and returns whether the last group held anything |
| Tlb2hEmit.PushStep | src/tlb2h/tlb2h.cpp:368-387 | a push after a full group of ten writes that group's `append` opener, saves its closer and starts a new group; any other push joins the current group with ", " |
| Tlb2hEmit.PushAllState | src/tlb2h/tlb2h.cpp:368-387 | after n pushed names the stream holds the openers of the (n-1)/10 finished groups, one closer is saved per finished group, and the current group holds the remaining names |
| Tlb2hEmit.RenderedSplit | src/tlb2h/tlb2h.cpp:375-398 | the openers of the finished groups, the last `make_list` and the saved closers together are the nested rendering of the names |
| Tlb2hEmit.TypeListRendering | src/tlb2h/tlb2h.cpp:360-409 | pushing n >= 1 names and ending writes them as nested `typelist::append< make_list<…>::result, … >` groups of at most ten, with one " > " closer per finished group, and returns true; with no names it writes " make_list<>::result " and returns false; either way the list is fresh again |
| Tlb2hEmit.EndedPushed | src/tlb2h/tlb2h.cpp:388-400 | ending a list in the state that pushing n names leaves writes their full rendering and returns true |
| Tlb2hEmit.TypeList.constructor | src/tlb2h/tlb2h.cpp:364-366 | a fresh list over the given stream text |
| Tlb2hEmit.TypeList.Push | src/tlb2h/tlb2h.cpp:368-387 | the fields and the stream move as one push |
| Tlb2hEmit.TypeList.End | src/tlb2h/tlb2h.cpp:388-400 | the fields, the stream and the result are those of `end()` |
| Tlb2hEmit.OneoffPrefixOnce | src/tlb2h/tlb2h.cpp:419-432 | after any run of writes the stream holds the prefix followed by all the text if any of it was non-empty, and nothing new otherwise; `did_output` says which |
| Tlb2hEmit.OneoffOutputToStream.constructor | src/tlb2h/tlb2h.cpp:415-418 | keeps the prefix, not yet written |
| Tlb2hEmit.OneoffOutputToStream.Write | src/tlb2h/tlb2h.cpp:419-431 | one write: an empty text writes nothing; the first non-empty one is preceded by the prefix |
| Tlb2hEmit.OneoffOutputToStream.Close | src/tlb2h/tlb2h.cpp:433-439 | the closing text is written only after a written prefix |
| Tlb2hEmit.OneoffOutputToStream.Open | src/tlb2h/tlb2h.cpp:440-443 | re-arms the prefix |
| Tlb2hEmit.OneoffOutputToStream.OpenWith | src/tlb2h/tlb2h.cpp:444-448 | re-arms with a new prefix |
| Tlb2hEmit.OneoffOutput.constructor | src/tlb2h/tlb2h.cpp:460-462 | keeps the prefix, not yet written |
| Tlb2hEmit.OneoffOutput.Apply | src/tlb2h/tlb2h.cpp:464-472 | the prefix goes to the first stream it is applied to and never again |
| Tlb2hParams.Masked | src/tlb2h/tlb2h.cpp:1420-1422 | clearing HASDEFAULT, OPT and LCID one by one is one mask |
| Tlb2hParams.GetDirectionTable | src/tlb2h/tlb2h.cpp:1423-1437 | after masking: IN or (no flags and not `ok_as_out`) gives IN; OUT gives OUT; IN+OUT or (no flags and `ok_as_out`) gives INOUT; OUT+RETVAL gives RETVAL; every other combination throws, both directions of each |
| Tlb2hParams.GetDirectionIgnores | src/tlb2h/tlb2h.cpp:1413-1422 | HASDEFAULT, OPT and LCID never change the answer, a parameter without a description acts as no flags, and `force_retval_` gives RETVAL whatever the flags |
| Tlb2hParams.AddPropEntry | src/tlb2h/tlb2h.cpp:3503-3519 | an unexpected invoke kind is exactly the error case; a propget sets only the getter |
| Tlb2hParams.PutOrderIrrelevant | src/tlb2h/tlb2h.cpp:3507-3516 | a propput and a propputref of one property give the same entry in either order: the propput is the main setter and the propputref the second one |
| Tlb2hParams.PutTwice | src/tlb2h/tlb2h.cpp:3507-3510 | a later propput displaces the earlier one into the second slot |
| Tlb2hParams.PropertyTable.AddProp | src/tlb2h/tlb2h.cpp:3500-3520 | the entry for the name is created empty first, then updated as the invoke kind says; an unexpected kind throws and still leaves the (possibly new) entry behind |
| Stream.HrOf | include/comet/stream.h:675 | the interface boundary returns a COM error's own HRESULT and E_FAIL for any other exception |
| Stream.PutByte | include/comet/stream.h:131-132 | one byte put at a position replaces that byte, or extends the contents through it with NULs in any gap |
| Stream.WriteAtContents | include/comet/stream.h:122-144 | a write of bytes at a position leaves those bytes at their positions, the old contents elsewhere and NULs in any gap past the old end |
| Stream.WriteAtExtends | include/comet/stream.h:122-144 | a write at or past the end keeps the old contents as a prefix and appends NULs up to the write and then the bytes |
| Stream.IstreamRead | include/comet/stream.h:42-99 | the count starts at 0, grows by one per byte taken from the get head, never exceeds the request, stops at the end of the data or where the buffer throws, and is exact when it throws; the bytes are the data from the get head on |
| Stream.OstreamWrite | include/comet/stream.h:101-156 | the count starts at 0, grows by one per byte put at the put head, stops where the buffer fails (EOF or an exception), and is exact in both cases; the data gets exactly the bytes counted |
| Stream.SeekRules | include/comet/stream.h:388-607 | a seek never changes the contents; a non-negative target succeeds and both reports and leaves the head there; a negative target fails with E_FAIL and leaves the state and reported position at the current one |
| Stream.SingleHead | include/comet/stream.h:488-531 | on an iostream a read after a write starts where the write ended and a write after a read starts where the read ended, with `m_last_op` recording the switch |
| Stream.WriteSeekReadRoundTrip | include/comet/stream.h:474-607 | on an iostream over a sound buffer, bytes written are read back after seeking to where the write began |
| Stream.ReadRules | include/comet/stream.h:639-676 | the count is zeroed first; a null buffer gives STG_E_INVALIDPOINTER and an ostream STG_E_ACCESSDENIED, both with count 0; otherwise S_OK exactly for a full read, S_FALSE exactly for a short read without a throw, E_FAIL with the partial count when the buffer threw; contents never change |
| Stream.WriteRules | include/comet/stream.h:678-716 | a null buffer gives STG_E_INVALIDPOINTER and an istream STG_E_ACCESSDENIED, both with count 0; otherwise S_OK exactly for a full write, STG_E_MEDIUMFULL for a short one stopped by EOF and E_FAIL for one stopped by an exception, with the partial count and exactly those bytes written |
| Stream.SeekReplyRules | include/comet/stream.h:718-767 | SET, CUR and END seek from the start, the current head and the end; any other origin fails with position 0 reported; a negative target fails, reporting and keeping the current position |
| Stream.SeekToEnd | include/comet/stream.h:352-359 | `stream_size`: seeking to the end reports the size and changes no contents |
| Stream.SetSizeBodyData | include/comet/stream.h:786-820 | the body of `SetSize` either leaves the contents alone or writes one NUL at `size - 1`, at or past the old end |
| Stream.SetSizeKeeps | include/comet/stream.h:779-825 | corrected `SetSize` never shrinks the stream and always restores the position |
| Stream.SetSizeNoGrowth | include/comet/stream.h:786-806 | a stream at least the requested size is left alone with S_OK, and a size whose last offset is beyond `streamoff` fails with STG_E_INVALIDFUNCTION |
| Stream.SetSizeGrowth | include/comet/stream.h:769-825 | a smaller stream is grown to exactly the requested size, padded with NULs, when writable; an istream refuses with STG_E_ACCESSDENIED and keeps its contents |
| Stream.SetSizeAsWrittenOneShort | include/comet/stream.h:804-806 | as written, asking for one byte more than the stream holds leaves it unchanged, while the corrected test grows it by one byte |
| Stream.SinkWrite | include/comet/stream.h:888-893 | the destination model (see "Left out"): its `Write` appends what it accepts and reports S_OK exactly for a full write, STG_E_MEDIUMFULL otherwise |
| Stream.ChunkSize | include/comet/stream.h:862-868 | a chunk is at most 512 bytes (COPY_CHUNK_SIZE) and at most what is left of `amount`, and is 0 only once `amount` bytes were read |
| Stream.CopyBounds | include/comet/stream.h:861-901 | `CopyTo` never reads more than `amount`, and the source contents are unchanged; for the appending, truthful destination model of `SinkWrite`, it never writes more than it read, and the destination receives exactly the bytes reported written, appended to what it held |
| Stream.CopyAll | include/comet/stream.h:827-906 | from an istream over a sound buffer into an unbounded destination, `CopyTo` copies min(amount, bytes left) bytes from the current position and succeeds |
| Stream.CopyToNoDestination | include/comet/stream.h:832-851 | a null destination gives STG_E_INVALIDPOINTER with both totals zeroed and nothing read |
| Stream.CopyStopsOnShortChunk | include/comet/stream.h:895-899 | a round that reads fewer bytes than its chunk is the last one, although fewer than `amount` bytes were read |
| Stream.Destination.Write | include/comet/stream.h:888-889 | the destination's contents, result and count are those of `SinkWrite` |
| Stream.AdaptedStream.constructor | include/comet/stream.h:486 | the iostream traits start with `m_last_op` at read |
| Stream.AdaptedStream.IstreamReadLoop | include/comet/stream.h:63-87 | the byte loop of `do_istream_read` computes `IstreamRead` |
| Stream.AdaptedStream.OstreamWriteLoop | include/comet/stream.h:122-144 | the byte loop of `do_ostream_write` computes `OstreamWrite` |
| Stream.AdaptedStream.DoRead | include/comet/stream.h:366-530 | the traits' `do_read`: an ostream refuses with STG_E_ACCESSDENIED; an iostream after a write first moves its get head to the put head |
| Stream.AdaptedStream.DoWrite | include/comet/stream.h:379-531 | the traits' `do_write`: an istream refuses with STG_E_ACCESSDENIED; an iostream after a read first moves its put head to the get head |
| Stream.AdaptedStream.DoSeek | include/comet/stream.h:388-580 | the traits' `do_seek`, with the position finalisers reporting the head's position whether or not the seek succeeded |
| Stream.AdaptedStream.DoTell | include/comet/stream.h:401-605 | the traits' `do_tell`: the position of the head of the last operation |
| Stream.AdaptedStream.Read | include/comet/stream.h:639-676 | the new state, result, count and bytes are those of `ReadSpec` |
| Stream.AdaptedStream.Write | include/comet/stream.h:678-716 | the new state, result and count are those of `WriteSpec` |
| Stream.AdaptedStream.Seek | include/comet/stream.h:718-767 | the new state, result and reported position are those of `SeekSpec` |
| Stream.AdaptedStream.SetSize | include/comet/stream.h:779-825 | the new state and result are those of the corrected `SetSizeSpec` |
| Stream.AdaptedStream.CopyTo | include/comet/stream.h:827-906 | the do-while loop gives the state, destination contents, result and totals of `CopyToSpec`; a null destination changes nothing |
| StlEnum.NextRules | include/comet/stl_enum.h:49-70 | the count is zeroed first and a null array gives E_POINTER without moving the cursor; with k elements left and no conversion throwing, `Next(celt)` fetches the next min(celt, k) in order, moves the cursor past them, and returns S_OK exactly when it fetched `celt`, S_FALSE otherwise; a throw restores the cursor and returns E_FAIL with count 0 |
| StlEnum.NextThenNext | include/comet/stl_enum.h:56-69 | fetching a elements and then b more gives the same elements and cursor as fetching a + b at once |
| StlEnum.ShortFetchExhausts | include/comet/stl_enum.h:59-69 | after a short fetch the cursor is at the end and every later fetch returns S_FALSE with nothing |
| StlEnum.StlEnumeration.constructor | include/comet/stl_enum.h:107-112 | the cursor starts at `begin()` |
| StlEnum.StlEnumeration.Next | include/comet/stl_enum.h:49-70 | the loop gives the cursor, result, count and elements of `NextSpec` |
| StlEnum.StlEnumeration.Reset | include/comet/stl_enum.h:72-81 | the cursor goes back to the first element and the result is S_OK |
| StlEnum.StlEnumeration.Skip | include/comet/stl_enum.h:83-91 | the cursor moves on by exactly `celt`, which must not pass the end, and the result is S_OK |
| StlEnum.StlEnumeration.Clone | include/comet/stl_enum.h:93-104 | the clone enumerates the same container from the beginning, not from this cursor |
| LegacyEnum.LegacyAgreesWithStl | include/comet/enum.h:69-85 | with an out-array, enum.h's `Next` moves the cursor and fetches exactly as stl_enum.h's with the same S_OK rule; it writes the fetched count only when no conversion threw |
| LegacyEnum.LegacyEnumeration.constructor | include/comet/enum.h:121-125 | the cursor starts at `begin()` |
| LegacyEnum.LegacyEnumeration.Next | include/comet/enum.h:69-85 | the loop gives the cursor, result, count and elements of `LegacyNextSpec`: no null check, and the count is left alone on a throw |
| LegacyEnum.LegacyEnumeration.Reset | include/comet/enum.h:87-96 | the cursor goes back to the first element and the result is S_OK |
| LegacyEnum.LegacyEnumeration.Skip | include/comet/enum.h:98-106 | the cursor moves on by exactly `celt`, which must not pass the end, and the result is S_OK |
| LegacyEnum.LegacyEnumeration.Clone | include/comet/enum.h:108-118 | the clone enumerates the same container from the beginning |
| LegacyEnum.VariantIterator.End | include/comet/enum.h:264 | the end iterator holds no enumerator |
| LegacyEnum.VariantIterator.Advance | include/comet/enum.h:293-299 | fetches one element; a failed HRESULT is raised; a fetch of none drops the enumerator; otherwise the element becomes current |
| LegacyEnum.VariantIterator.Over | include/comet/enum.h:260 | the initialiser list holds the enumerator, with no current element |
| LegacyEnum.VariantIterator.Create | include/comet/enum.h:260-262 | takes the enumerator and fetches its first remaining element: an error exactly when that fetch fails; otherwise a new iterator that holds null when there is no element and the element when there is |
| LegacyEnum.VariantIterator.NotEqual | include/comet/enum.h:273-277 | throws exactly when the right-hand side is not the end iterator, and otherwise says whether this iterator still holds its enumerator |
| LegacyEnum.ItfIterator.End | include/comet/enum.h:317 | the end iterator holds no enumerator and no pointer |
| LegacyEnum.ItfIterator.Advance | include/comet/enum.h:346-358 | as `variant_iterator`, and a fetch of none also nulls the current pointer |
| LegacyEnum.ItfIterator.Over | include/comet/enum.h:313 | the initialiser list holds the enumerator, with no current pointer |
| LegacyEnum.ItfIterator.Create | include/comet/enum.h:313-315 | takes the enumerator and fetches its first remaining element: an error exactly when that fetch fails; otherwise a new iterator that holds null when there is no element and the element when there is |
| LegacyEnum.ItfIterator.NotEqual | include/comet/enum.h:326-330 | throws exactly when the right-hand side is not the end iterator, and otherwise says whether this iterator still holds its enumerator |
| LegacyEnum.OneAtATime | include/comet/enum.h:69-85 | walking one element at a time from the cursor visits the remaining elements in order, and a fetch at the end returns none, which ends the iterators |
| LSCache.Initial | examples/comet/ASP/LSCache/cache.cpp:112-116 | a new cache is empty, with two hours' expiry and no size limit (-1) |
| LSCache.UpperBound | examples/comet/ASP/LSCache/cache.cpp:61 | where `multimap::insert` puts a new stamp: after every element stamped no later |
| LSCache.EraseTime | examples/comet/ASP/LSCache/cache.cpp:52 | `multimap::erase(key)` keeps exactly the heap elements whose time is not the key, in their order (a subsequence of the heap), and never lengthens it |
| LSCache.PutValueAsWrittenRules | examples/comet/ASP/LSCache/cache.cpp:32-62 | as written: a new item gets the one-value sub-map stamped now and its stamp inserted; an existing item keeps its other values, is restamped, and every heap element with its old stamp, whichever item owns it, is replaced by the new stamp; no other item changes |
| LSCache.GetValueAsWrittenRules | examples/comet/ASP/LSCache/cache.cpp:6-18 | as written: a missing item throws "Item not found" and changes nothing; a missing key throws "key not found"; otherwise the stored value is returned; either way only the item's map stamp is refreshed, never the heap |
| LSCache.RemoveAsWrittenBreaksCount | examples/comet/ASP/LSCache/cache.cpp:13-29 | as written, removing the only item of a consistent cache leaves 0 map entries and 1 heap element, the sizes `GetValue` asserts equal |
| LSCache.SharedStampAsWritten | examples/comet/ASP/LSCache/cache.cpp:50-61 | as written, two items stamped with equal `datetime_t::now()` readings (equal integer minutes in the model) share a heap key, so updating one also erases the other's stamp: two entries, one heap element |
| LSCache.GetThenPutAsWritten | examples/comet/ASP/LSCache/cache.cpp:11-61 | as written, a read followed by an update leaves the item with two heap elements, since the old heap stamp is no longer the item's map stamp |
| LSCache.FindIdx | examples/comet/ASP/LSCache/cache.cpp:52 | the position of the item's heap element, or none when the heap holds no element for it |
| LSCache.DistinctCard | examples/comet/ASP/LSCache/cache.cpp:13 | a heap with one element per name holds as many elements as names |
| LSCache.ConsistentSizes | examples/comet/ASP/LSCache/cache.cpp:13 | in a consistent cache the map and the heap have the same size, which is what `GetValue` asserts |
| LSCache.InsertKeeps | examples/comet/ASP/LSCache/cache.cpp:61 | inserting a stamp for a name the heap lacks keeps it sorted and one element per name, and adds exactly that element |
| LSCache.RemoveAtKeeps | examples/comet/ASP/LSCache/cache.cpp:52 | taking out one element keeps order and distinctness and drops exactly that element's name |
| LSCache.UnstampKeeps | examples/comet/ASP/LSCache/cache.cpp:29 | taking out an item's element keeps order and distinctness and drops exactly that name |
| LSCache.RestampKeeps | examples/comet/ASP/LSCache/cache.cpp:50-61 | moving an item's element to a new stamp keeps order and distinctness; the heap then holds the new stamp and every other item's element |
| LSCache.InitialConsistent | examples/comet/ASP/LSCache/cache.cpp:108-122 | the empty cache is consistent |
| LSCache.PutValueConsistent | examples/comet/ASP/LSCache/cache.cpp:32-62 | the corrected `PutValue` keeps the cache consistent: the heap holds, in time order, exactly one element per item, carrying the item's own stamp |
| LSCache.GetValueConsistent | examples/comet/ASP/LSCache/cache.cpp:6-18 | the corrected `GetValue`, which moves the refreshed stamp in the heap too, keeps the cache consistent |
| LSCache.RemoveConsistent | examples/comet/ASP/LSCache/cache.cpp:26-30 | the corrected `Remove`, which takes the item's element out of the heap too, keeps the cache consistent |
| LSCache.GcConsistent | examples/comet/ASP/LSCache/cache.cpp:157-173 | `gc` keeps the cache consistent |
| LSCache.GcRules | examples/comet/ASP/LSCache/cache.cpp:163-172 | with a size limit the iterator first passes the oldest max(0, size - limit) elements; with no expiry it stops there; with one it passes on over every element at least `expiry` minutes old and stops at the first younger one; the passed items leave the map and the passed prefix leaves the heap; a non-negative limit bounds the heap that is left |
| LSCache.ExpiredRunRules | examples/comet/ASP/LSCache/cache.cpp:168 | the expiry scan passes only elements at least `expiry` minutes old, stops at the first younger one, and passes nothing when the expiry is negative |
| LSCache.GcIterator | examples/comet/ASP/LSCache/cache.cpp:163-168 | the iterator loop stops where `GcCut` says |
| LSCache.EraseItems | examples/comet/ASP/LSCache/cache.cpp:170-171 | the erase loop leaves the map without the items of every element the iterator passed |
| LSCache.CCache.constructor | examples/comet/ASP/LSCache/cache.cpp:108-122 | the defaults of `Initial`, consistent |
| LSCache.CCache.GetValue | examples/comet/ASP/LSCache/cache.cpp:6-18 | the reply and new state of the corrected `GetValue`; the asserted size equality holds |
| LSCache.CCache.GetCount | examples/comet/ASP/LSCache/cache.cpp:20-24 | the number of items, which equals the heap size |
| LSCache.CCache.Remove | examples/comet/ASP/LSCache/cache.cpp:26-30 | the new state of the corrected `Remove`, consistent |
| LSCache.CCache.PutValue | examples/comet/ASP/LSCache/cache.cpp:32-62 | the new state of the corrected `PutValue`, consistent |
| LSCache.CCache.GetExpiry | examples/comet/ASP/LSCache/cache.cpp:70-74 | the expiry in minutes |
| LSCache.CCache.PutExpiry | examples/comet/ASP/LSCache/cache.cpp:76-83 | sets the expiry and nothing else |
| LSCache.CCache.GetMaxSize | examples/comet/ASP/LSCache/cache.cpp:85-89 | the size limit |
| LSCache.CCache.PutMaxSize | examples/comet/ASP/LSCache/cache.cpp:91-98 | sets the size limit and nothing else |
| LSCache.CCache.Gc | examples/comet/ASP/LSCache/cache.cpp:157-173 | the new state of `GcSpec`, consistent |
| WizardScript.LastIndexOf | src/comet/Scripts/1033/default.js:301 | `lastIndexOf` for one character: -1 exactly when the character is absent, otherwise a position holding it with no later occurrence |
| WizardScript.SubstrStart | src/comet/Scripts/1033/default.js:301 | where JScript's `substr` starts: a negative start is 0, a start past the end is the end, any other start is itself |
| WizardScript.GetTargetNameRules | src/comet/Scripts/1033/default.js:246-270 | the six template names are matched exactly: readme.txt and sample.txt are capitalised, main.idl/.rc/.def take the project-name argument, main.cpp takes the PROJECT_NAME symbol; every other name is kept |
| WizardScript.TargetKeepsExtension | src/comet/Scripts/1033/default.js:252-268 | every target name has its template's extension, so renaming never changes the copy-only decision |
| WizardScript.SameExtension | src/comet/Scripts/1033/default.js:301 | two names ending in the same dotted suffix with no further dot have that suffix as extension |
| WizardScript.ExtensionOfSuffix | src/comet/Scripts/1033/default.js:301 | the extension starts at the last dot |
| WizardScript.ExtensionWithoutDot | src/comet/Scripts/1033/default.js:301 | for a name without a dot, `substr(lastIndexOf("."))` is `substr(-1)`, which is the whole name |
| WizardScript.CopyOnlyIffSuffix | src/comet/Scripts/1033/default.js:300-303 | a template is only copied exactly when its name ends in .bmp, .ico, .gif, .rtf or .css, case-sensitively |
| WizardScript.CopyOnlyEndsWith | src/comet/Scripts/1033/default.js:301-303 | a name judged copy-only ends in the extension it was judged by, because that extension has a dot |
| WizardScript.EndsWithCopyOnly | src/comet/Scripts/1033/default.js:301-303 | a name ending in one of the five copy-only extensions has exactly that extension |
| WizardScript.AddFilesToCustomProj | src/comet/Scripts/1033/default.js:289-307 | the loop over the manifest makes exactly the host calls of the line-by-line specification: for each non-empty line a render of the template path into the project path of the target name, with the copy-only flag, then the addition of that file |
| WizardScript.ManifestAppend | src/comet/Scripts/1033/default.js:290-307 | the walk is line by line: a manifest split anywhere gives the calls of its two halves in order |
| WizardScript.EmptyLineSkipped | src/comet/Scripts/1033/default.js:293 | an empty line makes no call |
| WizardScript.ManifestPositions | src/comet/Scripts/1033/default.js:292-305 | for a manifest without empty lines, the k-th line gives the calls at positions 2k (render, template path `TEMPLATES_PATH\line`, file `projectPath\target`) and 2k+1 (AddFile of the same file) |
| WizardScript.ManifestExample | src/comet/Scripts/1033/default.js:289-307 | the manifest main.cpp, blank, readme.txt, logo.bmp for project Foo renders Foo.cpp and ReadMe.txt, copies logo.bmp, and adds the three files in that order |
| WizardScript.SolutionPathRules | src/comet/Scripts/1033/default.js:44 | the solution directory is the project path's prefix without as many characters as the project name has; empty when the name is at least as long; a project path ending in the name is that directory followed by the name |
| WizardScript.SolutionToCreateRules | src/comet/Scripts/1033/default.js:38-46 | a solution is created exactly when CLOSE_SOLUTION is set and the solution name is non-empty, with that name, in a prefix of the project path |
| CometAw.Byte | src/CometWizard/CometAw.cpp:33 | `%02X` gives two characters |
| CometAw.GuidText | src/CometWizard/CometAw.cpp:33-37 | the GUID text has 36 characters |
| CometAw.HexCase | src/CometWizard/CometAw.cpp:33 | `%X` writes only digits and upper-case letters, `%x` only digits and lower-case letters |
| CometAw.GuidGroups | src/CometWizard/CometAw.cpp:33-37 | the text is Data1 in 8 upper-case digits, Data2 in 4, Data3 in 4 lower-case digits, then the eight bytes in two upper-case digits each, with dashes at 8, 13, 18 and 23 |
| CometAw.GuidRoundTrip | src/CometWizard/CometAw.cpp:33-39 | the TLIB_GUID text determines the GUID: reading the groups back as hexadecimal gives the original GUID |
| CometAw.GuidCase | src/CometWizard/CometAw.cpp:33 | only the third group (positions 14-17) is written in lower case; no other position holds a lower-case letter |
| CometAw.DocRules | src/CometWizard/CometAw.cpp:65-68 | `Doc` is the root's first six characters (all of a shorter root) and `DOC` is that upper-cased character by character |
| CometAw.MacTypeRules | src/CometWizard/CometAw.cpp:71-79 | `MAC_TYPE` has exactly four characters: the root's first four upper-cased, then spaces up to four |
| CometAw.MacTypeAgreesWithDoc | src/CometWizard/CometAw.cpp:65-79 | MAC_TYPE and DOC agree on their first min(4, length of root) characters |
| CometAw.CometAppWiz.InitCustomAppWiz | src/CometWizard/CometAw.cpp:16-41 | sets no steps, HELP and PROJTYPE_DLL to "1", and TLIB_GUID to the formatted GUID; no other symbol changes |
| CometAw.CometAppWiz.Next | src/CometWizard/CometAw.cpp:52-84 | takes the root symbol (empty when absent), stores it in `g_root`, sets Doc, DOC and MAC_TYPE from it and nothing else, and returns no further step |
| Collections.SortedKeysRules | examples/comet/Collections/map.h:6-7 | a std::map is walked over each key exactly once, in strictly increasing key order |
| Collections.MinOf | examples/comet/Collections/map.h:6-7 | a non-empty key set has a first key, no later than every other |
| Collections.EnumProjections | examples/comet/Collections/objmap.h:47-55 | the `select1st` and `select2nd` enumerations walk the same entries: one element per entry, the i-th value belonging to the i-th key |
| Collections.LookupRules | examples/comet/Collections/map.h:9-14 | a lookup throws its message exactly for an absent key and otherwise returns the stored value; after a store the key reads back the stored value and other keys are unchanged |
| Collections.SetPutRules | examples/comet/Collections/varset.h:17-27 | inserting is idempotent and makes the item present; erasing makes it absent and throws "No such element" exactly when it was absent; other items are unaffected; the count moves by one exactly when membership changes |
| Collections.VariantSet.GetCount | examples/comet/Collections/varset.h:9 | the number of distinct items |
| Collections.VariantSet.GetItem | examples/comet/Collections/varset.h:11-15 | true exactly when the item is in the set |
| Collections.VariantSet.Enum | examples/comet/Collections/varset.h:29-32 | the enumeration walks the items, each once, in ascending order |
| Collections.VariantSet.PutItem | examples/comet/Collections/varset.h:17-27 | the set becomes that of the put specification, or on the error path stays as it was and the message is returned |
| Collections.VariantMap.GetItem | examples/comet/Collections/map.h:9-14 | the stored value, or "No such element" for an absent key |
| Collections.VariantMap.PutItem | examples/comet/Collections/map.h:16-19 | the key now maps to the value; no other entry changes |
| Collections.VariantMap.EnumKeys | examples/comet/Collections/map.h:21-24 | one element per entry of the map: the i-th element is the value stored under the i-th key in key order |
| Collections.VariantMapEnumKeysYieldsValues | examples/comet/Collections/map.h:23 | the enumeration named EnumKeys projects with `select2nd`: on a one-entry map it yields the value, not the key |
| Collections.ObjectMap.GetItem | examples/comet/Collections/objmap.h:30-35 | the stored object, or "No such element" for an absent name |
| Collections.ObjectMap.PutItem | examples/comet/Collections/objmap.h:37-40 | the name now maps to the object; no other entry changes |
| Collections.ObjectMap.GetCount | examples/comet/Collections/objmap.h:42 | the number of entries |
| Collections.ObjectMap.EnumKeys | examples/comet/Collections/objmap.h:47-50 | one element per entry, exactly the names stored, in strictly ascending key order (the sorted keys of the map) |
| Collections.ObjectMap.EnumValues | examples/comet/Collections/objmap.h:52-55 | one element per entry, the i-th being the object stored under the i-th key |
| Collections.At | examples/comet/ParentChild2/pc.cpp:11-17 | the entry for a present key, and "Index out of range" exactly when the key is absent |
| Collections.Parent.GetChild | examples/comet/ParentChild2/pc.cpp:19-22 | the child stored under the name, or the `at` error |
| Collections.Parent.AddChild | examples/comet/ParentChild2/pc.cpp:29-37 | a taken name throws "Child already exists" and changes nothing; otherwise a new child whose parent is this object is stored under the name and returned; a success is exactly the children map that `AddChildSpec` gives |
| Collections.AddChildRules | examples/comet/ParentChild2/pc.cpp:29-37 | adding fails exactly for a taken name; otherwise it adds one entry, which `at` then finds, and every earlier entry is found as before |
| Collections.AddOne | examples/comet/DynamicDispatch/demo.h:13 | one more than the argument as a 32-bit integer, wrapping at the largest value |
| Collections.Demo.GetMeaningOfTheUniverse | examples/comet/DynamicDispatch/demo.h:14 | always 42 |
| Collections.Demo.GetItem | examples/comet/DynamicDispatch/demo.h:16-21 | the stored value, or "No such item." for an absent key |
| Collections.Demo.PutItem | examples/comet/DynamicDispatch/demo.h:23-26 | the key now maps to the value; no other entry changes |
| Collections.DemoPutThenGet | examples/comet/DynamicDispatch/demo.h:16-26 | a value put under a key reads back |

## Left out

- tlb2h: everything that reads the TLI type-library objects is left out: `Type`, the rest of `Parameter`, the member, interface, record, union, enum, coclass and library emitters, and `process_file`. These are foreign COM calls and large code-emission strings.
- tlb2h: opening the namespace and symbol files, `FindFirstFile`/`SearchPath` and the argv loop in `main` are Win32 and host I/O. The loaders take the file's lines, or its absence, as a parameter.
- tlb2h: the plain boolean setters and getters of `LibraryOptions` are left out because they hold no logic.
- Tlb2hNamespaces.NamespaceOptions.GetNameWithNs: models the release build. There, the `logic_error("Assertion failed")` thrown for a null type becomes `Err("Assertion failed")`. The debug build's "<<ASSERTION FAILED>>" text is not modelled.
- Tlb2hEmit.TypeListRendering: stated for non-empty names only. The class methods handle empty names as the source does.
- Tlb2hText.StripWhitespaceShape: keeps the source's behaviour of removing one leading blank too few.
- stream.h: `Stat`, `Commit`, `Revert`, `LockRegion`, `UnlockRegion` and `Clone` are stubs that return S_OK, so they are not modelled.
- stream.h: the standard stream buffer is an abstract device, meaning a byte sequence plus the position at which it faults (end of file or an exception).
- Stream.SinkWrite: the destination of `CopyTo` is modelled as an appending sink that reports truthfully: it accepts a prefix of the buffer, answers S_OK only for a full write and STG_E_MEDIUMFULL for a short one. A real `IStream` destination may report any count and result; the source trusts them and goes on after a short write that returns S_OK. Those destinations are not modelled.
- Stream.CopyBounds: its destination clauses (written never exceeds read; the destination grows by exactly the bytes reported written) are stated for that sink model only. The read bound and the unchanged source hold for any destination.
- stream.h: the `istream::sentry` whitespace skipping and the stream's fail and bad bits are left out. The stream is taken to stay good.
- stream.h: the sizes are unbounded naturals. The "Seek offset too large" branches that compare against the 64-bit limits are kept as range checks on the offset.
- LegacyEnum.ItfIterator: the `try_cast` of each fetched variant to the interface is not modelled; the fetched element itself becomes the current pointer, and a failing cast is not represented.
- StlEnum.StlEnumeration.Skip and LegacyEnum.LegacyEnumeration.Skip: require that `celt` not pass the end. The source's `while (celt--) it_++;` (stl_enum.h:83-91, enum.h:98-106) does not check for the end and always returns S_OK; past the end it is undefined behaviour, where IEnumVARIANT specifies S_FALSE.
- WizardScript.SubstrStart: models the JScript engine that runs the wizard scripts, where a negative `substr` start is 0; ECMAScript's Annex B rule counts it back from the end instead. The copy-only decision is the same under either rule, since a name without a dot can equal none of the five extensions either way.
- WizardScript.ExtensionWithoutDot: stated for the JScript rule above (the whole name); under the Annex B rule it would be the last character.
- enum_common.h: the type policies and pointer converters are reference-counting glue. Each element is modelled as a value copied into the output array, and an element's initialisation failure is a position in the container.
- CometAutoExp: debugger memory reads (`ReadMem` and the `*_Evaluate` entry points) become a memory-read result passed in as a parameter.
- CometAutoExp: the registry lookup in `get_desc_of`, `VarBstrFromDate`, the floating-point `Period_Evaluate` and the VT_CY/VT_DATE branches are left out. So are `vartype_len`'s platform `sizeof` values.
- AutoExp.DateFromAbsdate: the 32-bit arithmetic is modelled, but the calendar properties are stated only for day numbers from -32044, where truncating and Euclidean division agree, up to `NoWrapMax`, where no intermediate product overflows.
- AutoExp.Widen: takes plain `char` to be signed, which is MSVC's default. Built with an unsigned `char` (`/J`), a byte from 0x80 up would stay below 256 and go through the switch instead.
- AutoExp.Truncate: models `strncpy` into a buffer of the given length. Writing past a short buffer through `strcpy` is left out, as undefined behaviour.
- LSCache: the collector thread, its event, the critical section and the `SetEvent` calls in `PutExpiry`/`PutMaxSize` are concurrency, so they are left out. `Gc` is modelled as one collection run.
- LSCache: the free-threaded-marshaler check at the start of `PutValue` is a COM query, so it is left out.
- LSCache: `EnumerateKeys` builds a COM enumerator, so it is left out.
- LSCache: time is integer minutes supplied by the caller, in place of the floating-point `datetime_t::now()`.
- default.js: `AddConfig`, `AddFilters`, `PchSettings`, `CreateInfFile`, project creation and the error text handling are host automation calls. The walk itself returns the host calls it would make, as a list of actions. Host failures part-way through the walk are not modelled.
- CometAw.cpp: `CoCreateGuid` becomes the GUID parameter. `ExitCustomAppWiz`, `CustomizeProject` and the compiler and linker settings fallbacks are host calls.
- Common.Upper: `MakeUpper` is modelled for ASCII letters only.
- Collections: variant keys are modelled as strings ordered by code point, in place of the variant comparison. For characters outside the Basic Multilingual Plane this differs from the UTF-16 code-unit order of a wide string. Stored variants and objects are values of a type parameter.
- Collections: the enumerators that `create_enum` builds are modelled as the sequences they walk, so they are ghost functions. `EnumChildren` of the parent example is left out because it is the same projection.
- Collections.AddOne: takes the argument as a 32-bit integer. The `int` conversion of non-integer variants and the registration of the methods by name (`add_method`) are left out.

## Findings

| source | as written | input that shows it | evidently intended | confidence | as-written member | corrected member |
|---|---|---|---|---|---|---|
| include/comet/stream.h:806 | `SetSize` grows the stream only when the new last offset `size - 1` is strictly past `stream_size`, the current length | a stream of n bytes and `SetSize(n + 1)`: offset n is not past n, so nothing is written and the stream stays one byte short | grow whenever the new last offset is at or past the current end (`>=`) | not executed | Stream.SetSizeAsWrittenOneShort | Stream.SetSizeGrowth |
| src/CometAutoExp/CometAutoExp.cpp:959 | `(DateOnly + 1) % 7L` in C truncates toward zero, so it is negative for day numbers below -1, and `wday` is indexed with it | day number -2 gives index -1, which is before the start of `wday` | a weekday index in 0..6 for every day number | not executed | AutoExp.WeekdayAsWrittenOutOfTable | AutoExp.WeekdayIndexRules |
| src/CometAutoExp/CometAutoExp.cpp:214 | the choice between IUnknown and IDispatch compares the whole `vt` with VT_UNKNOWN, flag bits included | VT_BYREF added to VT_UNKNOWN, with no extra text, is described as "IDispatch **" | compare the base type, giving "IUnknown **" | not executed | AutoExp.DescByrefUnknownAsWritten | AutoExp.DescWrapsBase |
| examples/comet/ASP/LSCache/cache.cpp:29 | `Remove` erases the item from the map only, which breaks the asserted equality of the map and heap sizes | put item "a", then remove it: the map is empty and the heap holds one element | remove the item's heap element too | not executed | LSCache.RemoveAsWrittenBreaksCount | LSCache.RemoveConsistent |
| examples/comet/ASP/LSCache/cache.cpp:52 | `heap_.erase(timestamp)` erases every heap element with that stamp, including other items' elements | put "a" and "b" with equal `datetime_t::now()` readings (equal integer minutes in the model), then update "a": two items stay in the map and one in the heap | erase only this item's element | not executed | LSCache.SharedStampAsWritten | LSCache.PutValueConsistent |
| examples/comet/ASP/LSCache/cache.cpp:11 | `GetValue` refreshes the item's stamp in the map but not in the heap | put "a" at minute 0, read it at minute 1, put it at minute 2: the heap holds two elements for "a" | move the item's heap element to the new stamp | not executed | LSCache.GetThenPutAsWritten | LSCache.GetValueConsistent |
