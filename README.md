# pdfutils: content-stream text rewriting, modelled in Dafny

This project models the core of `pdfutils.py`. That core reads the text a PDF page shows, lets regular-expression rules rewrite that text, and writes the rewritten tokens back into the page's content stream. The model has six parts:

- **Tokenizer** (`tokenize_streams`, `InlineImage.read_data`, `chunk_pairs`, `chunk_triples`). It turns the lexer's flat token stream into top-level tokens using a stack of open frames for arrays, dictionaries and inline images. An inline image's raw payload runs up to the first `EI` that is followed by five plausible trailing bytes.
- **CMap reader** (class `CMap`). It replays the `codespacerange`, `bfrange`/`cidrange` and `bfchar`/`cidchar` blocks of a ToUnicode CMap into a forward table (code to text) and an inverse table (text to code). `decode` and `encode` use these tables.
- **Codec** (`toUnicode`, `fromUnicode`). It chooses how a string is decoded and encoded, depending on its font:
  - no font: Latin-1
  - a ToUnicode CMap (cached by stream)
  - WinAnsi or MacRoman (lenient when decoding, strict when encoding)
  - otherwise `"?"` when decoding, and a failure when encoding.
- **Text-layer builder** (`build_text_layer`, `TextToken`, `process_text`, `make_mutable_string_token`). It walks each page and changes every string into a mutable text unit. It collects, in order, the units that are shown by `Tj`, `'`, `"` or inside the array operand of `TJ`. It tracks the font that `Tf` selects through the resources' `Parent` chain.
- **Replacement engine** (`update_text_layer`). It applies each rule to the concatenated values of the collected units. It then maps every match back onto the units that produced it, including matches that straddle units and replacements of a different length. Two references specify the result: `ApplyRules` on the concatenated text, and `RulesOnUnits` unit by unit. In `RulesOnUnits`, a unit keeps its text outside the matches. For a match it overlaps, it takes as many characters of the remaining replacement as the match covers in it, or all that remains if the match ends in it.
- **Serializer** (`TextToken.__str__`, `tok_str`). An unchanged unit is written from its raw bytes. A changed unit is re-encoded for its font.

Files:

| file | contents |
|---|---|
| `common.dfy` | bytes, code points, `Result`, the source's exception kinds, `Concat` |
| `tokens.dfy` | the `Token` datatype, the chunkers, dictionary construction |
| `inline_image.dfy` | `read_data` |
| `tokenizer.dfy` | `tokenize_streams` |
| `cmap.dfy` | the CMap reader, `decode`, `encode` |
| `codec.dfy` | `toUnicode`, `fromUnicode` |
| `text_layer.dfy` | `build_text_layer` and font lookup |
| `replace.dfy` | `update_text_layer` |
| `serialize.dfy` | `tok_str` and `TextToken.__str__` |

Representation choices:

- **Text handles.** A `TextToken` object becomes a `Text(id)` handle into a pool of `TextUnit` values. The list `text_tokens` becomes the sequence of handle ids.
- **Errors.** A Python exception becomes `Err` of the exception's kind.
- **External code is a parameter.** The pdfrw lexer is the `Lexer` function. A regular expression is a `Rule`: the matches it finds in a text, plus the replacement function. `PdfString.from_bytes` is the `Spell` function. The WinAnsi and MacRoman code pages are `Charmap` tables.

## Model

| member | source | states |
|---|---|---|
| Tokens.Pairs | pdfutils.py:272-274 | the pairs are the list's elements two at a time, in order; an odd last element is dropped |
| Tokens.Triples | pdfutils.py:277-279 | the triples are the list's elements three at a time, in order; up to two trailing elements are dropped |
| Tokens.ChunkPairs | pdfutils.py:272-274 | popping two at a time off the front yields exactly `Pairs(s)` and leaves the tail of fewer than two elements in the list |
| Tokens.ChunkTriples | pdfutils.py:277-279 | popping three at a time yields exactly `Triples(s)` and leaves a tail of fewer than three elements |
| Tokens.DictOfSemantics | pdfutils.py:88-93 | a dictionary built from key/value pairs holds each key once, and a lookup gives the value of that key's last pair |
| Tokens.DictSetSemantics | pdfutils.py:88-93 | assigning a key keeps the keys unique, makes that key hold the new value and leaves every other key's value alone |
| InlineImage.ReadDataSpec | pdfutils.py:22-67 | on success the end index is at least `start - 1` and inside the data; it is white space followed by `EI`, white space and five newline/CR/printable bytes; the payload is `data[start:end]` |
| InlineImage.ReadData | pdfutils.py:22-67 | the three-state loop with its nested five-byte check computes `ReadDataSpec` |
| InlineImage.ScanFindsFirst | pdfutils.py:36-63 | from any state, the scan stops at or before every complete terminator candidate at or after its position |
| InlineImage.AllTrailing | pdfutils.py:47-56 | five following bytes that are all newline, CR or printable are accepted |
| InlineImage.TruncatedNearEnd | pdfutils.py:47-49 | the five-byte check reads past the data (an `IndexError`) only when fewer than five bytes follow |
| InlineImage.ReadDataTakesFirst | pdfutils.py:22-67 | the payload ends at the first complete candidate; when one exists, the only possible failure is the assertion on the byte before `EI` |
| InlineImage.EmbeddedCandidateStaysPayload | pdfutils.py:36-67 | an `EI` inside the payload that is followed by a control byte is rejected, and the payload runs on to the next valid `EI` |
| Tokenizer.Feed | pdfutils.py:78-117 | one token yields at most one top-level token, and only when no frame stays open; the yielded token is never a control keyword; `]`, `>>` or `EI` with no open frame fails (pop from an empty list); closing a dictionary frame whose pairs have an array, dictionary or inline-image key fails with `TypeError` (an unhashable key) |
| Tokenizer.FeedToken | pdfutils.py:78-117 | the body of the token loop, for every token other than `ID`, computes `Feed` |
| Tokenizer.ImageData | pdfutils.py:99-105 | `ID` yields nothing; lexing resumes where `read_data` stopped, at or after the byte before the payload; the image frame on top becomes a finished frame holding the pairs of its operands and the payload `read_data` cuts (its failure passes through), unless a key is unhashable, which is a `TypeError` before any payload is read; an empty stack is an `IndexError`, a dictionary frame a `TypeError` (its missing `read_data` attribute is `None`), an array frame an `AttributeError`, a finished image frame a `TypeError` |
| Tokenizer.ReadImage | pdfutils.py:99-105 | the `ID` branch computes `ImageData`: empty stack, a non-image frame and an unhashable key fail, otherwise the frame takes its dictionary and payload |
| Tokenizer.Tokenize | pdfutils.py:70-117 | the generator with its frame stack yields exactly `TokenizeSpec`: the top-level tokens of all streams, with the stack carried across streams, or an error (the error the source raises, except for the misnested closers listed under Left out) |
| Tokenizer.RunStreamClean | pdfutils.py:78-117 | a stream never yields `<<`, `>>`, `[`, `]`, `BI`, `ID` or `EI` as a token |
| Tokenizer.TokenizeClean | pdfutils.py:70-117 | no control keyword is ever yielded, over any number of streams |
| Tokenizer.FeedAllAppend | pdfutils.py:76-117 | feeding `a + b` is feeding `a`, then feeding `b` from the resulting state |
| Tokenizer.FeedOperands | pdfutils.py:110-112 | plain tokens inside an open frame are appended to that frame |
| Tokenizer.Literal | pdfutils.py:80-94 | an opener, plain tokens and a closer amount to the closer acting on a frame that holds exactly those tokens |
| Tokenizer.CloseArray | pdfutils.py:88-94 | `]` pops the array frame on top and hands its array to the enclosing frame, or yields it |
| Tokenizer.CloseDict | pdfutils.py:88-94 | `>>` pops the dictionary frame on top and pairs its contents; it hands the dictionary on when every key is hashable, and otherwise fails with `TypeError` |
| Tokenizer.ArrayLiteral | pdfutils.py:84-94 | `[` followed by plain tokens and `]` yields the array of those tokens |
| Tokenizer.DictLiteral | pdfutils.py:80-94 | `<<` followed by plain tokens and `>>` yields the dictionary of their pairs, or `TypeError` when a key is unhashable; for tokens as the lexer yields them it always yields the dictionary |
| Tokenizer.LexemesHashable | pdfutils.py:91-94 | keywords, names and strings are all valid dictionary keys |
| Tokenizer.TokenizeNoHandles | pdfutils.py:70-117 | the tokenizer's output holds no text handle at any depth, because the lexer yields only keywords, names and strings |
| Tokenizer.ImageLiteral | pdfutils.py:94-108 | `BI`, plain tokens, `ID` with a payload `read_data` accepts, then `EI`: the tokens fill the image frame, `ID` pairs them and attaches the payload (or fails with `TypeError` when a key is unhashable), and `EI` hands on one inline image with those entries and that payload |
| CMap.CodeToInt | pdfutils.py:302-308 | `code_to_int` succeeds exactly on non-empty strings (`reduce` of an empty sequence fails) |
| CMap.CodeBytes | pdfutils.py:312-326 | a code is written as one or two big-endian bytes, per the code-space width, and succeeds exactly when it fits; any other width is a `ValueError` |
| CMap.CodeRoundTrip | pdfutils.py:302-325 | writing a one- or two-byte code's value back at its width gives the code |
| CMap.RaiseLast | pdfutils.py:341-342 | offset 0 keeps the text; otherwise the last code point is raised by the offset and the rest kept, an empty text is an `IndexError` and a result past U+10FFFF a `ValueError` |
| CMap.MakeTarget | pdfutils.py:327-346 | a string target is its two-byte code points with the last raised by the offset (`RaiseLast`); an array target gives its element at the offset (an `IndexError` past its end), raised the same way when that element is a string; a name or keyword at offset 0 is its own spelling; a non-string with an offset is an assertion failure; lists and dictionaries fail |
| CMap.AddMapping | pdfutils.py:310-349 | a mapping stores the code's bytes to the target text and the inverse, and keeps the tables coherent |
| CMap.Step | pdfutils.py:351-400 | a token outside `begincmap`…`endcmap` other than `begincmap` leaves the table alone |
| CMap.FillRangeCoherent | pdfutils.py:379-382 | filling a range keeps the tables coherent |
| CMap.RangesCoherent | pdfutils.py:375-383 | a range block keeps the tables coherent |
| CMap.RangesSkip | pdfutils.py:378-383 | a triple whose bounds are not both strings, or whose first code is past its last, leaves the table unchanged |
| CMap.CharsCoherent | pdfutils.py:385-390 | a char block keeps the tables coherent |
| CMap.StepCoherent | pdfutils.py:351-400 | every CMap token keeps the tables coherent |
| CMap.ReplayCoherent | pdfutils.py:351-400 | a replay of any token list keeps the tables coherent |
| CMap.TableOfCoherent | pdfutils.py:283-400 | every table the constructor builds has one- or two-byte codes, and every value of each map is a key of the other |
| CMap.AddRanges | pdfutils.py:375-383 | the loop over triples and codes computes `Ranges` |
| CMap.FillCodes | pdfutils.py:382-383 | the loop over one range's codes computes `FillRange` from the range start |
| CMap.AddChars | pdfutils.py:385-390 | the loop over pairs computes `Chars` |
| CMap.BuildTable | pdfutils.py:283-400 | the constructor's token loop computes `TableOf` |
| CMap.StepOnce | pdfutils.py:351-400 | one pass of the constructor's loop computes `Step` on the reader state, including its `IndexError`, `TypeError` and `AttributeError` exits |
| CMap.FillRangeFrame | pdfutils.py:379-382 | a code outside the range, or of another width, keeps its mapping |
| CMap.FillRangeContents | pdfutils.py:379-382 | every code of the range maps to the target raised by its offset from the range start |
| CMap.Pieces | pdfutils.py:406-420 | each decoded piece is a mapped text or the `?` placeholder |
| CMap.DecodeBytes | pdfutils.py:406-420 | the loop computes `Decode`: a one-byte entry first, then a two-byte one, else `?` and one byte |
| CMap.NextPiece | pdfutils.py:409-419 | one pass of `decode`'s loop takes exactly the piece `Pieces` starts with and consumes one or two bytes |
| CMap.DecodeUnmapped | pdfutils.py:406-420 | with no mappings, every byte decodes to `?` |
| CMap.EncodeText | pdfutils.py:423-427 | the loop computes `Encode`: each character's code, or nothing |
| CMap.EncodeAppend | pdfutils.py:423-427 | encoding distributes over concatenation |
| CMap.DecodeEncode | pdfutils.py:406-427 | a string of codes, each mapping to one character whose inverse entry is that code, decodes to one character per code and encodes back to itself |
| CMap.ReplayAppend | pdfutils.py:351-400 | replaying `a + b` is replaying `a`, then `b`; an error in `a` is final |
| CMap.IgnoredOutside | pdfutils.py:351-360 | tokens outside `begincmap` that are not `begincmap` change nothing |
| CMap.PushOperands | pdfutils.py:398-399 | operands inside the CMap are pushed on the operand stack |
| CMap.Block | pdfutils.py:368-396 | a `begin…`/`end…` block clears the operand stack at its start and then runs its end operator on its own operands |
| CMap.EndSpaceStep | pdfutils.py:372-373 | `endcodespacerange` takes the first two operands as the code space and pops them |
| CMap.EndRangeStep | pdfutils.py:377-384 | `endbfrange` stores the ranges its operands give and clears the operand stack |
| CMap.SampleRangeFills | pdfutils.py:375-383 | an array-free range `<0041> <0043> <0041>` maps the three codes to `A`, `B`, `C` |
| CMap.SampleSpaceSets | pdfutils.py:370-373 | the block `begincodespacerange <0000> <FFFF> endcodespacerange` sets that code space and leaves the table empty |
| CMap.SampleRangeSets | pdfutils.py:375-384 | the block `beginbfrange <0041> <0043> <0041> endbfrange` then builds the sample table |
| CMap.SampleReplay | pdfutils.py:351-400 | a code-space block then a range block build that table |
| CMap.SamplePieces | pdfutils.py:406-420 | `00 41 00 42 00 43` is cut into the three two-byte codes, each mapped to its letter |
| CMap.SampleDecode | pdfutils.py:406-420 | that table decodes `00 41 00 42 00 43` to `ABC` |
| CMap.SampleEncode | pdfutils.py:423-427 | and encodes `ABC` back to `00 41 00 42 00 43` |
| Codec.Latin1Decode | pdfutils.py:433-435 | each byte becomes the code point of the same value |
| Codec.Latin1Encode | pdfutils.py:461-464 | encoding succeeds exactly when every code point is below 256, and then gives those bytes; otherwise a `UnicodeError` |
| Codec.CharmapDecode | pdfutils.py:451-454 | each byte decodes by the code page, or to U+FFFD |
| Codec.CharmapEncode | pdfutils.py:471-474 | strict encoding succeeds exactly when every character is in the code page |
| Codec.ToUnicode | pdfutils.py:430-456 | the cache only grows; after a CMap font it holds a table for that font's stream; decoding fails only for a CMap font whose stream is not cached yet |
| Codec.CMapFont | pdfutils.py:436-450 | a cached stream decodes with its cached table; a stream not cached yet is read with `LoadCMap`, its table is added to the cache and used, or `LoadCMap`'s error is passed on |
| Codec.FromUnicode | pdfutils.py:459-480 | with no font, Latin-1; with a cached CMap, the CMap's encoding; failures are `UnicodeError` or `ValueError` only |
| Codec.Latin1RoundTrip | pdfutils.py:430-464 | with no font, text read from bytes writes back to the same bytes, whatever the cache |
| Codec.Latin1Inverse | pdfutils.py:430-464 | with no font, text that Latin-1 can write reads back unchanged |
| Codec.CharmapRoundTrip | pdfutils.py:451-474 | for a consistent code page, decoding then encoding restores the bytes exactly when every byte is defined |
| Codec.CharmapInverse | pdfutils.py:451-474 | for a consistent code page, strictly encoded text decodes back to itself |
| Codec.CMapPathAgrees | pdfutils.py:437-448 | a CMap font decodes with the cached table and encodes with its inverse |
| Codec.UnknownFont | pdfutils.py:449-480 | a font with no CMap and no known encoding decodes to `?` and cannot be encoded (`ValueError`) |
| Codec.CharmapFont | pdfutils.py:449-476 | a WinAnsi or MacRoman font with no CMap decodes through its code page and keeps the cache; it encodes through the same code page when it has no CMap or its CMap is not cached; for a consistent code page the bytes read write back unchanged exactly when each is defined |
| Codec.LoadCMap | pdfutils.py:444 | building a CMap tokenizes its stream first, so a tokenization error is the result; a table built is coherent |
| TextLayer.FindFont | pdfutils.py:251-260 | the loop over `Parent` computes `Walk` |
| TextLayer.Chain | pdfutils.py:256-260 | the resource dictionaries the loop visits are all truthy |
| TextLayer.WalkFindsFirst | pdfutils.py:251-260 | `Tf` selects the font of the first resource dictionary in the chain that defines the name; when none does, no font; looking up `Font` in a dictionary without one (before a match) fails |
| TextLayer.Mutable | pdfutils.py:164-171 | a string becomes a handle on a new unit holding its bytes, the current font and its decoding as both original and current value; other tokens pass through unchanged |
| TextLayer.ConvertElems | pdfutils.py:243-249 | converting a `TJ` array keeps its length, the page's token list and the font |
| TextLayer.MakeMutable | pdfutils.py:218-226 | computes `Mutable` |
| TextLayer.ConvertArray | pdfutils.py:243-249 | the loop over the array's elements computes `ConvertElems` |
| TextLayer.ScanPageTokens | pdfutils.py:228-266 | the token loop, with its `prev_token`/`prev_prev_token` variables, computes `ScanTokens` |
| TextLayer.ScanOne | pdfutils.py:230-266 | one pass of the token loop computes `ScanToken` and leaves `prev_token`/`prev_prev_token` as the last two entries of the list |
| TextLayer.RunOperator | pdfutils.py:238-261 | the branch on the operator computes `Dispatch`; the operator stays last in the list and the returned `prev_token` is the entry before it, rewritten by `TJ` |
| TextLayer.BuildTextLayer | pdfutils.py:120-268 | the page loop computes `TextLayerOf` |
| TextLayer.ConvertShape | pdfutils.py:243-249 | each string of the array becomes a handle on a new unit holding its bytes; every other element is kept |
| TextLayer.ConvertCollects | pdfutils.py:243-249 | the array's shown units are collected in array order |
| TextLayer.ScanTokenTracks | pdfutils.py:228-266 | each token keeps the collected list equal to what the page's tokens show so far |
| TextLayer.ScanTokensTracks | pdfutils.py:228-266 | and so does every run of tokens |
| TextLayer.DispatchTracks | pdfutils.py:238-261 | each operator branch keeps the collected list equal to what the page's tokens show |
| TextLayer.ScanPageTracks | pdfutils.py:228-266 | a whole page keeps it, after the units of earlier pages |
| TextLayer.ScanPagesTracks | pdfutils.py:191-266 | and so does the page loop |
| TextLayer.PageCollects | pdfutils.py:185-187 | a page collects exactly the units that its final token list shows: a handle before `Tj`, `'` or `"`, or a handle directly in an array before `TJ`, with empty values skipped |
| TextLayer.PagesFresh | pdfutils.py:229-230 | every page's tokens, as the tokenizer yields them, have no text handle at top level or directly inside an array |
| TextLayer.TextLayerHandles | pdfutils.py:120-268 | every text handle anywhere in the returned page token lists names one of the returned units |
| TextLayer.TextLayerCollects | pdfutils.py:120-268 | there is one token list per page, and `text_tokens` is exactly the shown units of all pages, in page order and then stream order |
| TextLayer.ScanTokenSound | pdfutils.py:228-266 | each token keeps every collected unit existing, non-empty and newer than the ones before |
| TextLayer.DispatchSound | pdfutils.py:238-261 | each operator branch keeps every collected unit existing, non-empty and newer than the ones before |
| TextLayer.ScanTokensSound | pdfutils.py:228-266 | and so does every run of tokens |
| TextLayer.ScanPagesSound | pdfutils.py:191-266 | every page keeps that, and leaves no bare string in its list |
| TextLayer.TextLayerSound | pdfutils.py:120-268 | `text_tokens` is strictly increasing (no unit collected twice); every collected unit has a non-empty value; every unit's value is its original; no page list holds a bare string |
| Replace.RuleKeeps | pdfutils.py:494-546 | a unit that no non-empty match of the rule overlaps ends the rule with the value it had (the unit-level reference `RuleOnUnits` gives every unit its text outside the matches and its `Share` of each match's replacement) |
| Replace.ShareInside | pdfutils.py:526-542 | a match lying inside one unit gives that unit the whole replacement and every other unit none of it |
| Replace.ShareAcross | pdfutils.py:526-542 | a match running from one unit into the next and ending there gives the first `replacement[:mlen]`, where `mlen` is the match's length inside it, and the second the rest; together they are the whole replacement |
| Replace.UnitShift | pdfutils.py:494-546 | starting a unit's reference value at an earlier position only adds the unit's own text in between |
| Replace.UnitKept | pdfutils.py:494-546 | for any position, a unit that no non-empty match overlaps receives exactly its own text from there on |
| Replace.LoMono | pdfutils.py:508-512 | a unit starts no earlier than the units before it, in the concatenated text |
| Replace.SkipTokens | pdfutils.py:508-512 | skipping whole units keeps the cursor's relation to the snapshot text and stops at the unit holding position `i1`, or at the end; every unit passed has been finished with its own remaining text, and nothing else changes |
| Replace.ReplaceInToken | pdfutils.py:513-546 | one step sets unit `idx` to `value[:mpos+xdiff] + r + value[mpos+mlen+xdiff:]`, where `r` is the first `mlen` characters of the replacement when the match goes on past this unit and all of it otherwise; the replacement left is the rest, or nothing; `i1` moves to the match's end or the unit's end, whichever comes first; `xdiff` grows by `len(r) - mlen`; the text produced so far plus what remains to place is unchanged |
| Replace.SkipToMatch | pdfutils.py:508-516 | the skipping half of one pass finds the unit holding `i1` (the `break` cannot happen) and keeps every unit's progress as the match's bookkeeping requires |
| Replace.PlaceInToken | pdfutils.py:518-546 | the replacing half of one pass moves `i1` forward and gives the cursor's unit its text up to `i1` and its share of the replacement |
| Replace.ReplaceMatch | pdfutils.py:503-546 | a non-empty match `[i1, i2)` is replaced by the replacement text wherever its parts lie; the `break` at the end of the list cannot happen; an empty match changes nothing; per unit: each unit gains its text before the match and exactly its `Share` of the replacement |
| Replace.ApplyMatch | pdfutils.py:494-546 | one match moves the cursor on and keeps the text produced so far plus the splice of the remaining matches unchanged, both for the whole text and for each unit separately |
| Replace.ApplyRuleToValues | pdfutils.py:488-546 | after one rule, the units' values concatenate to the snapshot text with each non-empty match replaced, left to right, the number of units is kept, and each unit's new value is the one the unit-level reference `RuleOnUnits` gives it |
| Replace.ApplyRuleToUnits | pdfutils.py:488-546 | one rule on the text units: only the collected units' values change; they become the unit-level reference's values, and concatenate to the rule's result on the old concatenation |
| Replace.SpliceEmptyMatches | pdfutils.py:494-503 | zero-length matches change nothing |
| Replace.ApplyRulesEmpty | pdfutils.py:483-503 | rules cannot produce text from empty text |
| Replace.SpliceLength | pdfutils.py:494-546 | the new text's length is the old length plus, for each non-empty match, the replacement's length minus the match's |
| Replace.SpliceKeepsFront | pdfutils.py:494-546 | text before the first non-empty match is unchanged |
| Replace.WriteBack | pdfutils.py:542 | storing the new values changes exactly the collected units' values |
| Replace.UpdateTextLayer | pdfutils.py:482-546 | with no text units nothing changes; otherwise the units' values concatenate to the rules' combined result on their old concatenation, each unit's value is what the unit-level reference `RulesOnUnits` gives it after all the rules, and only the collected units' values change |
| Serialize.UnitStr | pdfutils.py:172-180 | an unchanged unit writes its raw bytes, whatever the codec holds; a changed one writes its encoding for its font, and fails exactly when that encoding fails |
| Serialize.Gather | pdfutils.py:559-569 | a join of parts succeeds exactly when every part does, and then keeps all of them in order |
| Serialize.UneditedIndependent | pdfutils.py:172-180 | a token whose text units are all unchanged is written the same way under any codec tables and font cache |
| Serialize.TokStr | pdfutils.py:559-566 | a keyword, name or string is written as its own text; a written array is framed by `[ ` and `] `, a written dictionary by `<< ` and `>> ` |
| Serialize.TokStrErrors | pdfutils.py:559-566 | writing a token fails only with the encoder's `UnicodeError` or `ValueError` |
| Serialize.TokStrOk | pdfutils.py:559-566 | a token can be written exactly when every text unit in it can be encoded or is unchanged |
| Serialize.PageStream | pdfutils.py:568 | a page's stream can be written exactly when every token on it can, and fails only with an encoder's error |
| Serialize.BuiltPageStream | pdfutils.py:568 | a page the text-layer builder returned, written over its units or as many rewritten ones, has every handle in range and is written exactly when each of its tokens is |
| Serialize.ImagePayload | pdfutils.py:562-563 | an inline image is written as `BI`, its entries, ` ID `, its payload verbatim and ` EI ` |

## Left out

- I/O: reading and writing documents, `unlock_pdf` (pdftk via a subprocess), `uncompress_streams`, and the `page.Contents` rewrite in `apply_updated_text`. The serializer stops at the text of each token and the newline-joined page stream (`PageStream`).
- The pdfrw lexer (`PdfTokens`), `PdfString.to_bytes` and `from_bytes` are parameters. The lexer must yield only keywords, names and strings, must move forward, and `ID` spans at least two bytes. `read_data`'s trimming of the lexer's look-ahead (pdfutils.py:27-29) is part of the lexer, and so is not modelled.
- Regular expressions become `Rule` values. It is assumed, not derived, that `finditer` gives ascending, non-overlapping matches inside the text. A rule's replacement is a function of the searched text and the match.
- The WinAnsi (cp1252) and MacRoman code pages are parameters (`Charmap`), not tables written out. `CharmapRoundTrip` and `CharmapInverse` assume the code page is consistent.
- `fontcache.setdefault(BaseFont, …)` bookkeeping (pdfutils.py:222-224) is left out. It records which characters appeared in each font but is never read by the core.
- `CMap.dump` and the Python 2 branches are left out.
- `usecmap` calls `self.pop(0)`, which does not exist, so the model fails there with `AttributeError`, as the code does.
- TextLayer.ScanPage, Codec.LoadCMap: the source tokenizes lazily, while it processes a page's or a CMap's tokens. The model tokenizes all of the streams first and reports a tokenization error before anything else. When processing the tokens before the bad one would already fail, the source reports that failure instead. Examples: `/F1 12 Tf ]` on a page whose resources have no `/Font` raises `TypeError` in the `Tf` font lookup in the source (pdfutils.py:260), where the model reports the `IndexError` of `]`; `begincmap usecmap ]` raises `AttributeError` at pdfutils.py:368, where the model reports `IndexError`.
- Tokenizer.Feed: an `EI` whose top frame is still open (an array, a dictionary, or an image frame with no `ID`, as in `BI … EI`) makes the source pop that frame's class object (`PdfArray`, `PdfDict`, `InlineImage`) and yield or append it as a token. The model gives `Err(TypeError)` instead. A `]` or `>>` on an open image frame makes the source call `InlineImage` on the frame's flat token list: an empty list gives an empty inline image, and any other list is handed to the dictionary constructor. The model gives `Err(TypeError)` here too. On a finished image frame (past `ID`) the source raises `TypeError` because the frame holds an instance, not a class, and so does the model.
- Tokenizer.Tokenize: yields the source's tokens and errors except in the `Tokenizer.Feed` cases above, which it inherits.
- Handles in CMap streams: a CMap stream's tokens are read with the same tokenizer, and strings there are never changed into text units.
- Replace.UpdateTextLayer: the source rewrites the units in place while it scans. The model rewrites a sequence of values and stores it after each rule. This is the same result, because `text_tokens` never lists a unit twice (`TextLayer.TextLayerSound`). `UpdateTextLayer` requires that property.
- The model keeps the units in a pool (`seq<TextUnit>`) rather than as shared objects. Aliasing of a `TextToken` from several places does not arise, because each handle is created once.
