# ScopeAnalyser: verified models of its algorithmic cores

This project models the dense parts of ScopeAnalyser in Dafny and proves what they are for. Timestamps are
unbounded integers and sample values exact reals; a sample that is not a number is a separate case. Code that
works in place is modelled in place: the FFT and the odometer step overwrite arrays, the tokeniser, the parser,
the formula engine, the merge cursors and the type-table walk are objects whose methods change their fields, and
the other loops are loops. Each such method is proved against a specification function, and the theorems are
proved about those functions.

| file | what it models |
|---|---|
| `complex.dfy`, `dft.dfy`, `dft_inverse.dfy` | complex numbers as pairs of reals, the transform as a sum, why conjugate-transform-conjugate inverts it |
| `fft_radix2.dfy`, `spectrum.dfy` | the in-place radix-2 routine; FFTCut/FFTKeep, RFFTmag/RFFTphase, revertFFT |
| `sorting.dfy`, `merge_grid.dfy`, `html_island.dfy`, `scope_page.dfy` | the union grid of the HTML export, the emit cursors, the loader, the page's read-outs |
| `odometer.dfy`, `plc_names.dfy`, `plc_dims.dfy`, `subscripts.dfy` | mixed-radix odometer, subscripts, array expansion from a declaration, the 64-bit product of its dimensions, what a subscript says about the address |
| `type_table.dfy`, `type_table_layout.dfy`, `type_table_depth.dfy`, `type_table_paths.dfy`, `type_table_listing.dfy` | type-table expansion, the layout of its leaves, when its depth cap fires, which leaves there are, leaf caps and the two-round listing |
| `formula_lexer.dfy`, `formula_names.dfy`, `formula_brackets.dfy`, `formula_parser.dfy`, `formula_printing.dfy`, `formula_laws.dfy` | tokeniser, quoting and renaming in text, names that cannot be quoted, one-pass parser, grammar, what the text of a formula means in arithmetic |
| `formula_rename.dfy`, `formula_rename_exact.dfy`, `formula_fixpoint.dfy`, `formula_order.dfy`, `formula_engine.dfy` | rename preserves meaning and exactly when it does, recomputation as a fixed point, the orders in which it is right, the engine object |
| `interpolation.dfy`, `elementwise.dfy`, `shared_csv.dfy` | the interpolators, binary operations and resampling, the shared-column CSV round trip |
| `column_letters.dfy`, `tabular_import.dfy`, `signal_csv.dfy` | column letters, the importer's X resolution and row loop, the per-signal CSV round trip |
| `ams_protocol.dfy`, `ams_ids.dfy`, `ams_deadlock.dfy` | request callers and the reader thread as interleaved steps over two kinds of lock, whose reply a call returns, and exactly when they block each other |
| `options.dfy`, `orders.dfy`, `arithmetic.dfy` | a value that may be absent; times in order; division with remainder |

Places where the code does not keep what its comments say, or only under a condition, are proved as such:

- The map of pending requests can hold a pointer to a call that has returned, but only while the reader drains it
  under the map lock, and it never follows one (`AmsProtocol.StalePointersOnlyInDrain`,
  `AmsProtocol.DrainHoldsStalePointer`). Exactly the entries that drain has visited point to a call that is gone or
  goes by its own next step (`AmsProtocol.StaleExactly`).
- A call that times out can be blocked for ever: while a reply is handed over to it, or while the reader wakes the
  waiting calls on its way out. In every reachable state a timed-out call can still return if and only if the reader
  need not lock the frame of a timed-out call before it lets go of the map lock
  (`AmsDeadlock.ReturnsUnlessDeadlocked`; runs into both kinds: `AmsDeadlock.TimeoutCanMeetReply`,
  `AmsDeadlock.TimeoutCanMeetDrain`).
- The FFT runs over the end of its array for every length that is neither 0 nor a power of two
  (`FftRadix2.SweepsStayInsideExactly`), so revertFFT needs bins - 1 to be a power of two.
- A channel name comes back from its quoted form exactly when it is plain, or trimmed, non-empty and
  bracket-balanced (`FormulaNames.QuoteRoundTripExactly`). Renaming rewrites a formula to the renamed formula if and
  only if the old name is not used as a function or filter in it, and the new name can be quoted where the old one is
  a channel (`FormulaRenameExact.RenameIsExact`): not every name is allowed. Only a new name with blanks around it,
  which the rename dialog trims off, escapes this (`FormulaRenameExact.PaddingEscapes`).
- Renaming a channel onto another formula's name lists that name twice
  (`FormulaEngine.Engine.RenameChannel`, exact condition in its contract).
- A recomputation that starts with old derived channels in the store can leave a channel at a value its formula does
  not have (`FormulaFixpoint.StaleValueStays`). Whatever functions compute, one pass is right from every store exactly
  when everything that formulas use from their own place in the order on keeps its value
  (`FormulaOrder.InOrderIsRight`, `FormulaOrder.RightExactlyInOrder`). A channel keeps it when it can have no value or
  is up to date, and also when bare references hand its own old value back to it, as in a circle of them
  (`FormulaOrder.BareCircleIsRight`), provided that registering that value again leaves it as it is. From a store that
  holds what is used that way, every channel with a formula for instance, one pass is the whole recomputation
  (`FormulaEngine.Engine.RecomputeAll`); from others a second pass can undo the first
  (`FormulaOrder.SecondPassUndoes`). A redefined formula moves to the end of the order, behind those that use it.
- Formulas under names that cannot be quoted are evaluated into another name or into none
  (`FormulaEngine.LineAssignsExactly`); what a recomputation with such formulas does is still determined
  (`FormulaEngine.Engine.RecomputeAll`).
- The per-signal CSV loses the first sample of every channel when no header row was written, turns values that
  are not numbers into 0, and imports nothing when there is no sample at all (`SignalCsv.RestoresExactly`).
- The page's read-out has no value at grid points that repeat a channel's last timestamp behind its last sample
  (`ScopePage.MissingReadings`, `ScopePage.PageShowsTheLine`).
- The depth cap of the type-table expansion, whose comment says that no real structure is cut for being deep, cuts
  exactly the symbols with a nesting path of more levels than it allows (`TypeTableDepth.TooDeepExactly`). An array
  type the table leaves out costs a level and no place on the type stack, so 33 nested structures are already cut
  that way (`TypeTableDepth.UnlistedArraysAreCut`), and so is any longer chain than 512 when all array types are
  listed (`TypeTableDepth.LongChainIsCut`); tables of up to 31 types, or of up to 512 with all array types listed,
  never are (`TypeTableDepth.SmallTablesAreNeverCut`, `TypeTableDepth.DepthCapNeverFires`).
- The formula engine's and the function registry's interpolators, called mirrors of each other, differ exactly at
  repeated times inside a channel whose first and last sample differ (`Interpolation.InterpolatorsAgreeExactly`).
- The overflow guard on the number of array elements misses products that wrap round to a positive number, and counts
  that wrap themselves (`PlcDims.GuardMissesOverflow`); the product is the number of elements if and only if that
  number fits 63 bits (`PlcDims.ProductIsTrueExactly`).
- The scan that warns of samples a shared-column CSV will drop counts repeated timestamps; a run of them that starts
  with no number loses its whole time, one row more than counted (`SharedCsv.RepeatsAreTheLoss`).

## Model

| member | source | states |
|---|---|---|
| FftRadix2.NextReversed | analyser/src/FunctionRegistry.cpp:1306-1309 | the downward carry takes the bit reversal of i - 1 to the bit reversal of i |
| FftRadix2.BitRevInvolution | analyser/src/FunctionRegistry.cpp:1304-1311 | bit reversal is its own inverse, so the swaps are a permutation |
| FftRadix2.BitRevBit | analyser/src/FunctionRegistry.cpp:1304-1311 | bit k of the reversal is bit n - 1 - k of the index |
| FftRadix2.BitReversePermute | analyser/src/FunctionRegistry.cpp:1304-1311 | the swap loop leaves at p the element that was at the reversal of p, and the same multiset of elements |
| FftRadix2.Sweep | analyser/src/FunctionRegistry.cpp:1316-1326 | one pass of butterflies turns transforms of length len / 2 into transforms of length len in every block |
| FftRadix2.Block | analyser/src/FunctionRegistry.cpp:1317-1325 | the butterflies of one block turn its two half transforms into one and leave all other blocks alone |
| FftRadix2.Butterflies | analyser/src/FunctionRegistry.cpp:1313-1327 | all passes turn the bit-reversed input into its full transform |
| FftRadix2.Fft | analyser/src/FunctionRegistry.cpp:1301-1328 | for length 0 and every power of two the array is left holding the discrete Fourier transform of its old contents |
| FftRadix2.SweepsStayInsideExactly | analyser/src/FunctionRegistry.cpp:1313-1327 | the butterfly indices stay inside the array if and only if its length is 0 or a power of two |
| Complexes.NormOfProduct | analyser/src/FunctionRegistry.cpp:1319-1325 | the product the butterflies use multiplies moduli, and i * i is -1 |
| Fourier.Butterfly | analyser/src/FunctionRegistry.cpp:1319-1325 | even and odd half transforms combine into both halves of the full transform |
| FourierInverse.Orthogonal | analyser/src/FunctionRegistry.cpp:1497-1502 | products of a root's powers with their conjugates sum to N on the diagonal and to 0 elsewhere |
| FourierInverse.InverseOfDft | analyser/src/FunctionRegistry.cpp:1497-1502 | conjugating, transforming, conjugating and dividing by N undoes the transform |
| FourierInverse.DftOfInverse | analyser/src/FunctionRegistry.cpp:1497-1502 | and transforming that gives the sequence back, so an edited spectrum is the spectrum of its own inverse |
| Spectrum.PaddedLength | analyser/src/FunctionRegistry.cpp:1483-1484 | the doubling loop finds the smallest power of two that is not below the count |
| Spectrum.LoadPadded | analyser/src/FunctionRegistry.cpp:1485-1486 | the buffer is the samples as real numbers followed by zeros |
| Spectrum.MaskBins | analyser/src/FunctionRegistry.cpp:1490-1495 | exactly the bins whose folded frequency is inside (cut) or outside (keep) the band become 0 |
| Spectrum.InvertReal | analyser/src/FunctionRegistry.cpp:1497-1502 | the in-place inverse leaves the real parts of the inverse transform of the buffer |
| Spectrum.FftBandEdit | analyser/src/FunctionRegistry.cpp:1453-1505 | each error case in its order, and otherwise the real parts of a signal whose spectrum is 0 at the bins to drop and that of the padded input at all others, cut to the sample count; the bins to drop are those whose folded frequency min(k, N - k) * (count - 1) / (seconds * N) lies in the band for FFTCut and outside it for FFTKeep |
| Spectrum.EditIsUnique | analyser/src/FunctionRegistry.cpp:1488-1502 | exactly one signal has such a spectrum, so the bins decide the result |
| Spectrum.WholeEdit | analyser/src/FunctionRegistry.cpp:1488-1505 | with a power of two of samples the result itself, transformed, has 0 at the dropped bins and those of the input at all others |
| Spectrum.FullBand | analyser/src/FunctionRegistry.cpp:1488-1505 | a band over all frequencies leaves nothing of the signal with FFTCut and all of it with FFTKeep |
| Spectrum.RealIsMirrored | analyser/src/FunctionRegistry.cpp:1488-1495 | the spectrum of a real signal holds conjugates at k and N - k |
| Spectrum.MirroredInverseIsReal | analyser/src/FunctionRegistry.cpp:1497-1502 | a mirrored spectrum has a real inverse, so taking the real part discards nothing |
| Spectrum.BandEditIsReal | analyser/src/FunctionRegistry.cpp:1490-1502 | both edits keep the mirror symmetry, hence invert to real signals |
| Spectrum.CutPlusKeep | analyser/src/FunctionRegistry.cpp:1507-1512 | FFTCut and FFTKeep of one band, each given only by what its bins are, add up to the signal, sample for sample, for every signal and band |
| Spectrum.RfftSpectrum | analyser/src/FunctionRegistry.cpp:1522-1560 | each error case, and otherwise magnitude or phase of the first N / 2 + 1 bins of the padded transform |
| Spectrum.RebuildSpectrum | analyser/src/FunctionRegistry.cpp:1584-1590 | the array is the half spectrum followed by its mirrored conjugates |
| Spectrum.RevertFft | analyser/src/FunctionRegistry.cpp:1568-1615 | the length error, and otherwise the real inverse of the rebuilt spectrum |
| Spectrum.RevertRestores | analyser/src/FunctionRegistry.cpp:1514-1520 | revertFFT of RFFTmag and RFFTphase is the signal zero-padded to the next power of two |
| Sorting.SortByIsStableSort | converter/src/HtmlExport.cpp:161-176 | the sort is ordered, a permutation, and keeps the order of equal keys |
| Sorting.StableSortIsUnique | converter/src/HtmlExport.cpp:161-176 | ordered and stable determines the result |
| MergeGrid.UnionGridIsUnique | converter/src/HtmlExport.cpp:188-230 | an ordered sequence with each time as often as its greatest repeat is unique, so both paths give one grid |
| MergeGrid.GridIsShortest | converter/src/HtmlExport.cpp:128-138 | no sequence in which every sorted channel occurs in order is shorter than the grid |
| MergeGrid.GridCovers | converter/src/HtmlExport.cpp:131-138 | every channel has room on the grid for each of its repeats |
| MergeGrid.Unique | converter/src/HtmlExport.cpp:203-204 | dropping equal neighbours of an ordered sequence leaves each value once, in order |
| MergeGrid.DistinctUnion | converter/src/HtmlExport.cpp:196-206 | without repeats, concatenate-sort-unique is the union grid |
| MergeGrid.AppendRuns | converter/src/HtmlExport.cpp:212-220 | a channel is reduced to its times with their run lengths |
| MergeGrid.LongestFrom | converter/src/HtmlExport.cpp:223-226 | the end of the runs of one time, and the longest of them |
| MergeGrid.RunLengthUnion | converter/src/HtmlExport.cpp:208-230 | runs merged by their maximum are the union grid, repeats or not |
| HtmlIsland.MergeSrc.constructor | converter/src/HtmlExport.cpp:148-176 | a source holds its channel stably sorted by time with the cursor at the start |
| HtmlIsland.PrepareSources | converter/src/HtmlExport.cpp:145-185 | one source per channel that has samples, in the order of the channels |
| HtmlIsland.AnyDuplicate | converter/src/HtmlExport.cpp:188-194 | true exactly when some sorted channel repeats a time |
| HtmlIsland.BuildGrid | converter/src/HtmlExport.cpp:188-230 | whichever path is taken, the grid is the union grid of the sorted channels |
| HtmlIsland.MergeSrc.EmitColumn | converter/src/HtmlExport.cpp:561-575 | on a grid it embeds in, the cursor reaches the end and the column carries every sample at its first free place and null elsewhere |
| HtmlIsland.EmbedsExactly | converter/src/HtmlExport.cpp:281-290 | a sorted channel occurs in order on a sorted grid, which is what lets its cursor consume it all, if and only if the grid repeats each of its times at least as often |
| HtmlIsland.EmitAll | converter/src/HtmlExport.cpp:549-575 | every source is emitted completely, each sample at the first place still free for its time and null elsewhere |
| HtmlIsland.BuildIslandDomain | converter/src/HtmlExport.cpp:139-231 | the grid with one complete column per channel that has samples: it loads back as the channel, and each sample stands at its first free place |
| HtmlIsland.LoadColumn | converter/src/HtmlExport.cpp:919-929 | the row loop keeps exactly the non-null cells with their grid times |
| HtmlIsland.LoadDomain | converter/src/HtmlExport.cpp:895-937 | one channel per column with any number in it, in order |
| HtmlIsland.LoadedIsRestored | converter/src/HtmlExport.cpp:904-936 | columns that carry their channels are read back as those channels' numeric samples |
| HtmlIsland.SaveAndReopen | converter/src/HtmlExport.cpp:139-231 | for any channels, saving and reopening returns each channel that has a number, in order: nothing but numbers, in time order, and at every time the numbers the channel recorded at it, in their order |
| HtmlIsland.PresentIsAll | converter/src/HtmlExport.cpp:924-929 | that is the whole channel if and only if no value is NaN |
| ScopePage.SamplePositions | converter/resources/scope_page.js:756-766 | the index holds exactly the positions with a sample, in order |
| ScopePage.ReadAt | converter/resources/scope_page.js:768-783 | the binary search reads the sample, the line between its neighbours, or nothing outside the channel, and says whether it was a sample |
| ScopePage.SweepForward | converter/resources/scope_page.js:305-306 | prev holds for every position the last sample at or before it |
| ScopePage.SweepBackward | converter/resources/scope_page.js:307-308 | next holds for every position the first sample at or after it |
| ScopePage.PairXY | converter/resources/scope_page.js:301-326 | at every grid position the pairing reads the same value as the binary search, none outside the channel included |
| ScopePage.ReadingIsLine | converter/resources/scope_page.js:743-752 | for a strictly increasing exported channel the reading inside its range is the original line at that time |
| ScopePage.MissingReadings | converter/resources/scope_page.js:776-782 | inside the channel's time range a reading is missing exactly behind its last sample, where the grid repeats its last timestamp |
| ScopePage.PageShowsTheLine | converter/resources/scope_page.js:743-783 | whatever else is exported, a strictly increasing gap-free channel reads as its line at exactly the grid points in its range that do not repeat its last timestamp, and as nothing elsewhere |
| ScopePage.ExportAndRead | converter/src/HtmlExport.cpp:238-300 | a whole export of any channels, read by the page at one position of one column, shows that |
| Odometer.NextIsSuccessor | ads/src/AdsTypeTable.cpp:206-209 | one odometer step takes the digits of n to the digits of n + 1 |
| Odometer.Step | ads/src/AdsTypeNames.cpp:137-140 | the in-place loop performs that step |
| Odometer.RowMajorOfDigits | ads/src/AdsTypeNames.cpp:115-141 | the row-major position of the digits of n is n |
| Odometer.DigitsOfRowMajor | ads/src/AdsTypeNames.cpp:115-141 | every index tuple is the digits of exactly its row-major position |
| Odometer.JoinedInjective | ads/src/AdsTypeNames.cpp:120-126 | comma-joined decimal numbers determine the numbers, negative ones included |
| PlcNames.SubscriptInjective | ads/src/AdsTypeNames.cpp:120-126 | different elements carry different subscripts |
| PlcNames.ExpandArraySymbol | ads/src/AdsTypeNames.cpp:80-143 | no array, unknown element type, too many elements and size mismatch as the source tells them apart, otherwise all elements in order |
| PlcNames.ListElements | ads/src/AdsTypeNames.cpp:115-142 | the odometer loop lists element n with the subscript and address of row-major position n |
| PlcNames.ElementsTile | ads/src/AdsTypeNames.cpp:102-109 | the element byte ranges start at the symbol, follow one another without gap or overlap and end at its end |
| PlcNames.ElementNamesDistinct | ads/src/AdsTypeNames.cpp:126-126 | no two elements share a name |
| Subscripts.JoinedReads | ads/src/AdsTypeNames.cpp:120-126 | numbers joined with commas are read back by a reader of comma-separated decimals |
| Subscripts.ElementByIndex | ads/src/AdsTypeNames.cpp:111-135 | for every index vector inside the declared bounds exactly one element has a subscript that reads as that vector, and it lies at the vector's row-major position times the element size, a recordable number of the element type |
| Subscripts.ElementHasIndex | ads/src/AdsTypeNames.cpp:120-126 | and every element's subscript reads as such a vector |
| PlcDims.ReadDimensions | ads/src/AdsTypeNames.cpp:61-77 | the loop accepts exactly the declarations whose bounds are read, in order, and whose wrapped products stay positive, and returns bounds and wrapped product |
| PlcDims.ProductIsTrueExactly | ads/src/AdsTypeNames.cpp:72-74 | for all in-order 64-bit bounds, counts that wrap included, the wrapped product is the number of elements if and only if that fits 63 bits |
| PlcDims.FittingIsAccepted | ads/src/AdsTypeNames.cpp:61-77 | every declaration whose elements fit 63 bits is accepted with their number |
| PlcDims.GuardMissesOverflow | ads/src/AdsTypeNames.cpp:74-74 | two accepted declarations with too many elements: one of more than 2^64 taken for two, one whose second count wraps below zero |
| TypeTable.Expansion.constructor | ads/src/AdsTypeTable.cpp:159-172 | an expansion starts empty with an empty type stack |
| TypeTable.Expansion.ExpandInto | ads/src/AdsTypeTable.cpp:214-328 | the walk under a leaf cap follows the uncapped expansion leaf by leaf, restores the type stack, and is cut short exactly when it comes to some place once the cap is reached |
| TypeTable.Expansion.ExpandUnlistedType | ads/src/AdsTypeTable.cpp:223-255 | the same for a type name the table does not carry |
| TypeTable.Expansion.ExpandComposite | ads/src/AdsTypeTable.cpp:276-309 | the same for an array or structure entry with its type on the stack |
| TypeTable.Expansion.ExpandArrayElements | ads/src/AdsTypeTable.cpp:190-211 | the same for the element loop with its odometer |
| TypeTable.Expansion.ExpandElement | ads/src/AdsTypeTable.cpp:199-205 | one turn of that loop, stopped with the cut flag when full |
| TypeTable.Expansion.ExpandMembers | ads/src/AdsTypeTable.cpp:286-308 | the same for the member loop, bits at the bit-access group included |
| TypeTablePaths.LeavesExactly | ads/src/AdsTypeTable.cpp:190-328 | the expansion holds a leaf if and only if a way leads down to it over members and index vectors, entering no listed type twice and going over no more levels than the depth cap; name, type, width and wrapped address of the leaf are those of the way |
| TypeTablePaths.EveryWayIsListed | ads/src/AdsTypeTable.cpp:190-328 | where nothing is reported as nested too deep, the number of levels needs no condition |
| TypeTablePaths.LeafHasWay | ads/src/AdsTypeTable.cpp:214-309 | the same from any place, depth and type stack: every leaf has its way |
| TypeTablePaths.WayHasLeaf | ads/src/AdsTypeTable.cpp:214-309 | and every such way its leaf |
| TypeTableLayout.LeavesAreTidy | ads/src/AdsTypeTable.cpp:190-328 | over a well-formed table the leaves lie in their symbol's bits, are pairwise disjoint, carry pairwise distinct names, through any nesting |
| TypeTableLayout.BoxIsWellFormed | ads/src/AdsTypeTable.cpp:276-308 | the conditions of well-formedness can be met: a structure of an array of structures and of bits satisfies them |
| TypeTableLayout.ArrayIsTidy | ads/src/AdsTypeTable.cpp:190-211 | the same for an array whose size is count times element size |
| Subscripts.LeafInElement | ads/src/AdsTypeTable.cpp:198-211 | over a well-formed table every leaf under name[v] lies in the bytes of the element at the row-major position of v, and v is inside the declared bounds |
| TypeTableLayout.StructureIsTidy | ads/src/AdsTypeTable.cpp:286-308 | the same for a structure whose members fit and do not overlap |
| TypeTableLayout.UnlistedIsTidy | ads/src/AdsTypeTable.cpp:225-255 | the same for a type read off its own declaration |
| TypeTableListing.ExpandWithTypeTable | ads/src/AdsTypeTable.cpp:332-374 | the listing under a cap is the first leaves of the uncapped expansion, none for a symbol that expands to itself, with the report of what was cut |
| TypeTablePaths.ListedExactly | ads/src/AdsTypeTable.cpp:332-374 | a symbol's listing that nothing cut holds exactly the leaves that a way of at least one step leads down to; a symbol that is a number itself is not listed again |
| TypeTableListing.SmallerCapIsPrefix | ads/src/AdsTypeTable.cpp:171-216 | a smaller cap yields a prefix of what a larger cap yields |
| TypeTableListing.CutOrComplete | ads/src/AdsTypeTable.cpp:200-216 | an expansion holds the first leaves its cap allows and reports being cut exactly when it comes to some place once the cap is reached; otherwise it is complete, cut it holds exactly as many as the cap |
| TypeTableDepth.TooDeepExactly | ads/src/AdsTypeTable.cpp:216-221 | an expansion is cut for depth if and only if some nesting path from its type, over members and elements and without repeating a type of the table, has more levels than the cap |
| TypeTableDepth.ReportedExactly | ads/src/AdsTypeTable.cpp:349-354 | a listing not cut by its leaf cap reports exactly that |
| TypeTableDepth.DeepHasPath | ads/src/AdsTypeTable.cpp:216-309 | every branch cut for depth follows such a path, from any stack |
| TypeTableDepth.PathIsDeep | ads/src/AdsTypeTable.cpp:216-309 | and every such path is cut |
| TypeTableDepth.PathFitsTable | ads/src/AdsTypeTable.cpp:258-274 | with every array type in the table, each level of a path takes a type of its own |
| TypeTableDepth.NeverTooDeep | ads/src/AdsTypeTable.cpp:258-274 | so the depth stays within the number of types, from any stack |
| TypeTableDepth.DepthCapNeverFires | ads/src/AdsTypeTable.cpp:337-342 | with every array type in the table and up to 512 types the derived cap never cuts anything |
| TypeTableDepth.LongChainIsCut | ads/src/AdsTypeTable.cpp:337-342 | that bound is sharp: a chain of any number of listed types above 512 is cut |
| TypeTableDepth.UnlistedArraysAreCut | ads/src/AdsTypeTable.cpp:240-251 | with the array types between them left out, any chain of 33 or more structures is cut |
| TypeTableDepth.SmallTablesAreNeverCut | ads/src/AdsTypeTable.cpp:337-342 | a table of up to 31 types is never cut for depth, whatever it leaves out |
| TypeTableListing.ExpandOne | ads/src/AdsTypeTable.cpp:388-408 | one aggregate under a cap, by the table or else by its declaration: the first leaves up to the cap, or all or none of a declared array; reported as cut exactly when there is no room, more is to be visited when the cap is reached, or the array is longer |
| TypeTableListing.UncutIsAll | ads/src/AdsTypeTable.cpp:388-408 | what is not cut is complete |
| TypeTableListing.Listing.constructor | ads/src/AdsTypeTable.cpp:380-386 | a listing starts with the PLC's own names known and nothing emitted |
| TypeTableListing.Listing.Keep | ads/src/AdsTypeTable.cpp:409-416 | exactly the leaves whose name is neither known nor repeated are appended, in order, each paid for once and made known |
| TypeTableListing.Listing.KeepOne | ads/src/AdsTypeTable.cpp:411-414 | a symbol of unknown name is appended and paid for, one of known name is passed over |
| TypeTableListing.RecordAndKeep | ads/src/AdsTypeTable.cpp:436-437 | a complete outcome is recorded and its new leaves are kept |
| TypeTableListing.Listing.Record | ads/src/AdsTypeTable.cpp:418-423 | a limit is recorded exactly for reports that were cut, too deep or recursive |
| TypeTableListing.FirstTurn | ads/src/AdsTypeTable.cpp:429-437 | one first turn: the cap is the first cap as far as the budget goes, all leaves under it whose names are new are added, or nothing when the aggregate is held back |
| TypeTableListing.FirstRound | ads/src/AdsTypeTable.cpp:428-438 | one such turn for every aggregate in order; pending are exactly those cut |
| TypeTableListing.GrowOne | ads/src/AdsTypeTable.cpp:440-452 | one second turn: the cap is an equal share of the budget left, all leaves under it whose names are new are added, a limit is noted when it is cut or gets nothing |
| TypeTableListing.SecondRound | ads/src/AdsTypeTable.cpp:440-453 | one such turn for every pending aggregate in order |
| TypeTableListing.CapsRise | ads/src/AdsTypeTable.cpp:440-442 | the caps of the second round never decrease |
| TypeTableListing.SharesNeverShrink | ads/src/AdsTypeTable.cpp:441-442 | what one aggregate leaves unused only raises the share of those after it |
| TypeTableListing.CapIsFair | ads/src/AdsTypeTable.cpp:440-442 | with n aggregates left to grow, a second turn's cap c is the greatest with c * n within the budget left, and the last one's is all of it |
| TypeTableListing.RoomForHeld | ads/src/AdsTypeTable.cpp:440-453 | if the budget left after the first round holds q for every aggregate held back, and no one of them needs more than q, all aggregates are complete and only nesting is reported |
| TypeTableListing.ExpandAggregates | ads/src/AdsTypeTable.cpp:376-455 | list, limits and skipped names are those of the turns of both rounds; no name is listed twice or was listed by the PLC |
| TypeTableListing.WholeListing | ads/src/AdsTypeTable.cpp:376-455 | of such turns: at most budget symbols, each a leaf of an aggregate; every aggregate complete or named in a limit; a limit only for nesting or for a second turn cut by its own cap; each second turn lists all its cap allows; caps never decrease |
| TypeTableListing.RoomForAll | ads/src/AdsTypeTable.cpp:428-438 | when the first cap cuts no aggregate and the budget has that much to spare, there is no second round, every aggregate is complete and only nesting is reported |
| TypeTableListing.ListingIsUnique | ads/src/AdsTypeTable.cpp:376-455 | the inputs alone decide what is listed and which limits are reported |
| FormulaLexer.Lexer.constructor | analyser/src/FormulaEngine.cpp:38-38 | a tokeniser starts at the beginning of its text |
| FormulaLexer.Lexer.SkipSpaces | analyser/src/FormulaEngine.cpp:40-40 | the position moves behind the leading blanks |
| FormulaLexer.Lexer.Next | analyser/src/FormulaEngine.cpp:42-102 | the stepping tokeniser returns the token, start and end that the remaining text determines |
| FormulaLexer.Lexer.Bracketed | analyser/src/FormulaEngine.cpp:52-72 | a bracketed name, or the unterminated or empty bracket error |
| FormulaLexer.Lexer.SkipToPartner | analyser/src/FormulaEngine.cpp:55-64 | the depth loop stops at the partner of the opening bracket, or at the end |
| FormulaLexer.Lexer.Word | analyser/src/FormulaEngine.cpp:73-77 | the longest bare identifier |
| FormulaLexer.Lexer.Numeral | analyser/src/FormulaEngine.cpp:78-86 | the longest number, signs only behind an exponent mark |
| FormulaLexer.CloseFindsMatch | analyser/src/FormulaEngine.cpp:55-64 | where the loop stops, the depth falls to zero for the first time |
| FormulaLexer.MatchIsClose | analyser/src/FormulaEngine.cpp:55-64 | and it stops nowhere else |
| FormulaNames.QuoteName | analyser/src/FormulaEngine.cpp:608-618 | plain names stay, all others are bracketed |
| FormulaNames.QuoteRoundTripExactly | analyser/src/FormulaEngine.cpp:608-618 | a quoted name tokenises to exactly that one identifier if and only if the name is plain, or non-empty, trimmed and bracket-balanced |
| FormulaNames.QuotedReadsBack | analyser/src/FormulaEngine.cpp:610-617 | a quoted name reads back in front of any text that does not extend a name |
| FormulaNames.ReadNamesAreReferenceable | analyser/src/FormulaEngine.cpp:52-77 | every name the tokeniser reads can be quoted and read again |
| FormulaNames.FirstIsLocal | analyser/src/FormulaEngine.cpp:42-102 | a token does not depend on what follows it beyond the next character |
| FormulaNames.TrimKeepsTokens | analyser/src/FormulaEngine.cpp:604-604 | trimming a formula keeps its tokens |
| FormulaNames.RewriteReferences | analyser/src/FormulaEngine.cpp:635-652 | the copying loop respells every reference token and keeps every other character |
| FormulaNames.RewritingRenamesTokens | analyser/src/FormulaEngine.cpp:629-652 | the rewritten text has the same tokens with only that identifier changed |
| FormulaBrackets.CleanIsBalanced | analyser/src/FormulaEngine.cpp:52-100 | a text without error tokens has balanced brackets |
| FormulaBrackets.UnquotableAddsNames | analyser/src/FormulaEngine.cpp:617-652 | rewriting to a trimmed name that cannot be quoted gives an error token, or more names than before |
| FormulaParser.Parser.constructor | analyser/src/FormulaEngine.cpp:292-292 | the parser starts with the tokens of the whole text ahead |
| FormulaParser.Parser.Accept | analyser/src/FormulaEngine.cpp:294-297 | a token is consumed exactly when it is of the wanted kind |
| FormulaParser.Parser.Additive | analyser/src/FormulaEngine.cpp:310-324 | the one-pass evaluation is the value of the tree the grammar assigns, with the same tokens left, and fails exactly when parsing or evaluating fails |
| FormulaParser.Parser.Multiplicative | analyser/src/FormulaEngine.cpp:326-346 | the same for products |
| FormulaParser.Parser.UnaryValue | analyser/src/FormulaEngine.cpp:348-361 | the same for signs; minus multiplies by -1 |
| FormulaParser.Parser.PrimaryValue | analyser/src/FormulaEngine.cpp:363-377 | the same for numbers, parentheses, channels and calls; a bracketed name is never a call |
| FormulaParser.Parser.CallValue | analyser/src/FormulaEngine.cpp:390-475 | the same for calls, with arity, unknown functions and filtfilt's filter name |
| FormulaParser.Parser.Arguments | analyser/src/FormulaEngine.cpp:450-459 | the same for argument lists |
| FormulaParser.TailKeepsFailure | analyser/src/FormulaEngine.cpp:310-324 | giving up at the first failed operand loses nothing: the whole chain has no value |
| FormulaPrinting.PrintThenParse | analyser/src/FormulaEngine.cpp:287-363 | every tree, printed with the fewest parentheses, parses back to itself: products bind tighter than sums and both lean left |
| FormulaLaws.TokensOfBoth | analyser/src/FormulaEngine.cpp:42-102 | two texts of which the second does not run into the last token of the first have the tokens of the one and then those of the other |
| FormulaLaws.ChainExtends | analyser/src/FormulaEngine.cpp:310-346 | a chain read up to the end of its tokens is read the same in front of more, and goes on with an operator of its own level |
| FormulaLaws.NegIsNegative | analyser/src/FormulaEngine.cpp:348-355 | where operators are those of the reals, a sign gives the negative of its operand's value |
| FormulaLaws.SignedText | analyser/src/FormulaEngine.cpp:348-361 | in text: a minus in front of a signed factor of value v has the value -v, a plus v |
| FormulaLaws.OperatorText | analyser/src/FormulaEngine.cpp:310-346 | a sum or product text of value v, the operator, and a text of value w that binds tighter have the value v op w, so chains lean left; dividing by zero is left open |
| FormulaLaws.ParenthesisedText | analyser/src/FormulaEngine.cpp:369-375 | a sum in parentheses is a factor of the same value |
| FormulaLaws.SignsCancel | analyser/src/FormulaEngine.cpp:310-361 | for a factor s of value v: -s is -v, --s is v, s+-s is 0 and s--s is v + v, unless s ends in an exponent that would take the sign |
| FormulaLaws.NameText | analyser/src/FormulaEngine.cpp:376-390 | the quoted name of a channel has the channel's value |
| FormulaLaws.ExponentText | analyser/src/FormulaEngine.cpp:78-86 | digits, an exponent mark, its sign and more digits are one number |
| FormulaLaws.CallText | analyser/src/FormulaEngine.cpp:450-475 | a plain name, texts in parentheses with commas between them: the function's result on their values in that order, or nothing when there is no such function or it takes another number of them |
| FormulaLaws.FiltfiltText | analyser/src/FormulaEngine.cpp:390-447 | filtfilt on such texts runs the filter named forth and back over their values; nothing for a filter it may not run, an unknown one or another number of arguments |
| FormulaLaws.IdentityForthAndBack | analyser/src/FormulaEngine.cpp:438-447 | where reversing twice is nothing, a filter that does nothing does nothing forth and back |
| FormulaLaws.EvenFilterRunsTwice | analyser/src/FormulaEngine.cpp:438-447 | a filter that treats a reversed signal alike is run twice, with its other arguments as they were |
| FormulaLaws.OddFilterCancels | analyser/src/FormulaEngine.cpp:438-447 | a filter that undoes itself on the reversed signal leaves the signal as it was |
| FormulaLaws.DelayLeavesNoShift | analyser/src/FormulaEngine.cpp:384-389 | a filter that delays by one sample leaves every sample but the last in its place |
| FormulaRename.ParsedIsTidy | analyser/src/FormulaEngine.cpp:363-500 | what parses holds no error token, no two operands in a row and no bracketed name in front of a parenthesis |
| FormulaRename.ExpressionRenamed | analyser/src/FormulaEngine.cpp:635-652 | renaming the tokens of an expression that parses renames that channel in its tree and nothing else |
| FormulaRename.EvalIsLocal | analyser/src/FormulaEngine.cpp:477-478 | a value needs every channel it refers to and depends on no other |
| FormulaRename.EvalRenamed | core/src/SignalStore.cpp:22-39 | over the re-keyed store the renamed tree has the value the tree had, or none as before |
| FormulaRename.RenamePreservesMeaning | analyser/src/FormulaEngine.cpp:629-681 | for any expression that parses and makes no call by the old name, the rewritten text parses to the renamed tree and has the same value over the re-keyed store |
| FormulaRename.RenamedCallNoLongerParses | analyser/src/FormulaEngine.cpp:646-649 | a call by the old name is no expression any more once the new name is bracketed |
| FormulaRenameExact.ParseReadsNames | analyser/src/FormulaEngine.cpp:363-500 | the names in a formula that parses are the channels, functions and filters of its tree, in order |
| FormulaRenameExact.RenameIsExact | analyser/src/FormulaEngine.cpp:629-681 | a formula that parses is rewritten to the renamed formula if and only if it does not use the old name as function or filter and the new name can be quoted where the old one is a channel |
| FormulaRenameExact.PaddingEscapes | analyser/src/FormulaEngine.cpp:390-400 | the one family outside: a filter renamed to itself with a blank in front is still that filter |
| FormulaFixpoint.EachEqualsItsFormula | analyser/src/FormulaEngine.cpp:705-726 | evaluated in dependency order, every channel equals its formula on the final store |
| FormulaFixpoint.FreshIsTopological | analyser/src/FormulaEngine.cpp:525-530 | from a store without derived channels, any order that succeeds is a dependency order |
| FormulaFixpoint.SaturatedHasAll | analyser/src/FormulaEngine.cpp:705-726 | when nothing pending succeeds any more, every formula reachable from the sources has been evaluated, to the same value |
| FormulaFixpoint.OrderDoesNotMatter | analyser/src/FormulaEngine.cpp:525-530 | the final store and the set of evaluated names do not depend on the definition order |
| FormulaFixpoint.SettledIsFixedPoint | analyser/src/FormulaEngine.cpp:705-730 | the names evaluated are exactly those with a value on the final store, each equals its formula there, and sources are untouched |
| FormulaFixpoint.StaleValueStays | analyser/src/FormulaEngine.cpp:698-734 | a store with an old derived channel, and an order, for which a channel ends at a value its formula does not have |
| FormulaOrder.InOrderIsRight | analyser/src/FormulaEngine.cpp:508-512 | from any store, old channels included: when what formulas use from their own place on keeps its value, each channel a pass evaluates equals its formula, what was up to date stays, and nothing is left to evaluate if all used that way is there |
| FormulaOrder.ChainValue | analyser/src/FormulaEngine.cpp:583-589 | a chain of bare references hands on the old value of the channel it starts from |
| FormulaOrder.UpToDateStays | analyser/src/FormulaEngine.cpp:698-734 | where every channel is up to date, recomputing in any order changes nothing and succeeds throughout |
| FormulaOrder.OutOfOrderGoesWrong | analyser/src/FormulaEngine.cpp:698-734 | any other use leaves a channel off its formula at the end of the recomputation, from the store of all channels with values that remember everything |
| FormulaOrder.RightExactlyInOrder | analyser/src/FormulaEngine.cpp:508-512 | over such values, whether registering marks a result or leaves it alone: a pass is right from every store if and only if what formulas use from their own place on keeps its value; the same for the whole recomputation and the stores that hold every channel with a formula |
| FormulaOrder.OrderOfFormulas | analyser/src/FormulaEngine.cpp:589-599 | where registering changes no value in the store, that condition is one of the formulas and their order alone |
| FormulaOrder.StaleIsOutOfOrder | analyser/src/FormulaEngine.cpp:583-589 | the formulas of the failing example, a bare use of a channel that takes on another's value, are out of order from every store |
| FormulaOrder.BareCircleIsRight | analyser/src/FormulaEngine.cpp:583-589 | two bare references to each other are in order, so a pass over them is right from every store whose old value registering leaves alone |
| FormulaOrder.SecondPassUndoes | analyser/src/FormulaEngine.cpp:705-726 | four bare formulas in order and a store without one of the channels used, for which the second pass changes what the first evaluated from |
| FormulaOrder.DelayedExists | analyser/src/FormulaEngine.cpp:705-726 | such formulas can be written |
| FormulaFixpoint.KeptOrderNeedsOnePass | analyser/src/FormulaEngine.cpp:517-521 | the order a recomputation leaves behind makes the next one from the same sources a single productive pass |
| FormulaFixpoint.RenameCommutes | analyser/src/FormulaEngine.cpp:668-681 | renaming and recomputing commute: every derivation carries over and the final store is the re-keyed one |
| FormulaFixpoint.RenameKeepsSaturated | analyser/src/FormulaEngine.cpp:668-681 | formulas that failed still fail under the new names |
| FormulaEngine.Engine.constructor | analyser/src/FormulaEngine.cpp:537-549 | an engine starts without formulas |
| FormulaEngine.Engine.SetFormula | analyser/src/FormulaEngine.cpp:517-521 | the formula is recorded and its name moves to the end of the order |
| FormulaEngine.Engine.Forget | analyser/src/FormulaEngine.cpp:691-694 | formula and place in the order are gone, everything else stays |
| FormulaEngine.Engine.RememberFormula | analyser/src/FormulaEngine.cpp:624-627 | a non-blank expression is recorded trimmed |
| FormulaEngine.Engine.Add | core/src/SignalStore.cpp:7-20 | replacing a channel drops its formula, unless a recomputation is under way |
| FormulaEngine.Engine.Evaluate | analyser/src/FormulaEngine.cpp:554-606 | succeeds exactly when the line assigns and its whole right side has a value; then stores and records it, else changes nothing |
| FormulaEngine.Engine.Evaluated | analyser/src/FormulaEngine.cpp:571-587 | a value only when the whole expression is consumed |
| FormulaEngine.LineOfFormula | analyser/src/FormulaEngine.cpp:713-717 | the line a recomputation builds reads back as that name and that expression |
| FormulaEngine.LineAssignsExactly | analyser/src/FormulaEngine.cpp:713-717 | that line assigns to the formula's own name if and only if the name can be quoted |
| FormulaEngine.RecordedFormula | analyser/src/FormulaEngine.cpp:601-604 | the recorded text is not empty and has the tokens of the accepted line |
| FormulaEngine.Engine.Attempt | analyser/src/FormulaEngine.cpp:710-722 | re-evaluating a formula is evaluating the line it is spelt as, whatever its name |
| FormulaEngine.RetriedIsOf | analyser/src/FormulaEngine.cpp:710-722 | for a name that can be quoted that changes no formula, succeeds exactly when the formula has a value, and gives it to its own channel |
| FormulaEngine.Engine.Pass | analyser/src/FormulaEngine.cpp:709-723 | one pass tries each pending name's line once, in turn; what fails stays pending |
| FormulaEngine.PassOverHalfway | analyser/src/FormulaEngine.cpp:709-723 | where all names can be quoted, that evaluates those that succeed in turn, moves them to the end of the order and changes no formula |
| FormulaEngine.Engine.Passes | analyser/src/FormulaEngine.cpp:707-725 | passes over what is pending until one brings nothing, for any names; every name is evaluated or pending in the end |
| FormulaEngine.RerunIsRun | analyser/src/FormulaEngine.cpp:707-725 | where all names can be quoted, that is a run: its productive passes are each exactly what succeeds in turn of what the ones before left, and nothing pending succeeds any more |
| FormulaEngine.Engine.RecomputeAll | analyser/src/FormulaEngine.cpp:698-734 | for any names, store, formulas, order and errors are those of the lines tried pass by pass, each formula counted once or reported once; where all names can be quoted, the productive passes are listed, at most as many as formulas evaluated, the errors all fail on the final store, and the order is errors then successes; in an order as in `FormulaOrder.InOrderIsRight`, one pass at most, each evaluated channel equal to its formula, and what was up to date unchanged |
| FormulaEngine.Engine.RenameChannel | analyser/src/FormulaEngine.cpp:668-681 | every formula rewritten, the renamed one kept in its place; the order stays free of repeats exactly when old and new name did not both have formulas |
| FormulaEngine.Engine.RewriteAll | analyser/src/FormulaEngine.cpp:670-671 | every formula's text is rewritten, none is added or lost |
| FormulaEngine.PassesBound | analyser/src/FormulaEngine.cpp:707-726 | there are no more productive passes than formulas evaluated |
| Interpolation.InterpAt | analyser/src/FormulaEngine.cpp:146-158 | for times that may repeat, the monotone cursor reads between the last sample before t and the first at or behind it, flat outside, and may be used for the next query not before this one |
| Interpolation.InterpBinary | analyser/src/FunctionRegistry.cpp:1019-1036 | for times that may repeat, the binary search reads between the last sample at or before t and the first behind it, flat outside |
| Interpolation.BothAreHeld | analyser/src/FunctionRegistry.cpp:1019-1036 | without repeated times both give the signal's line, held flat outside |
| Interpolation.InterpolatorsAgreeExactly | analyser/src/FunctionRegistry.cpp:922-925 | in general they agree at t if and only if t is no repeated time strictly inside the range whose first and last sample differ |
| Interpolation.LineOnSegment | converter/src/CsvWriter.cpp:44-50 | on either end of a segment and between, the line is that segment |
| Interpolation.LerpOfLerp | converter/src/CsvWriter.cpp:35-51 | the line through two points of a line is that line |
| Elementwise.SameGrid | analyser/src/FormulaEngine.cpp:222-234 | on one grid, pairing by index equals the general intersection path |
| Elementwise.BroadcastConstant | analyser/src/FormulaEngine.cpp:210-220 | a constant operand is combined with every sample of the other |
| Elementwise.PairByIndex | analyser/src/FormulaEngine.cpp:228-234 | the fast path pairs the samples of one grid, repeated times included |
| Elementwise.CountInRange | analyser/src/FormulaEngine.cpp:244-249 | the number of an operand's times within the common range |
| Elementwise.SampleOther | analyser/src/FormulaEngine.cpp:264-281 | the general path takes every sample of one operand in the common range with the other's interpolated value |
| Elementwise.ElementwiseBinary | analyser/src/FormulaEngine.cpp:166-283 | both copies, repeated times included: the constant case, the two errors, the fast path, and the path on the operand with more samples in the common range |
| Elementwise.CombinedIsLines | analyser/src/FormulaEngine.cpp:160-165 | without repeated times both copies, by whichever path, give op of the two operands' lines at every output time |
| Elementwise.DenserOperand | analyser/src/FormulaEngine.cpp:236-263 | the output has all times of one operand in the common range, as often as they stand there, and no other: the operand that has more of them, the first if they have as many; there is none exactly when the ranges do not meet |
| Elementwise.ConstantIsHeld | analyser/src/FormulaEngine.cpp:203-220 | a constant acts as a signal that holds its value at every sample of the other operand, on either side |
| Elementwise.ResampleAt | analyser/src/FunctionRegistry.cpp:1771-1777 | the cursor loop gives the interpolated value, for a source without repeated times the line, at every requested time |
| Elementwise.ResampleTo | analyser/src/FunctionRegistry.cpp:1760-1777 | that at the target's times inside the signal's range |
| Elementwise.ResampleEvery | analyser/src/FunctionRegistry.cpp:1746-1777 | the rate errors, the step, and otherwise that at even steps from first to last |
| Elementwise.EvenTimes | analyser/src/FunctionRegistry.cpp:1757-1759 | the times are first + k * step up to the last sample |
| Elementwise.StepIsPeriod | analyser/src/FunctionRegistry.cpp:1746-1756 | the step is the greatest whole number of nanoseconds no longer than the rate's period |
| SharedCsv.BuildGrid | converter/src/CsvWriter.cpp:220-226 | the grid is increasing and holds exactly the channels' times |
| SharedCsv.WriteBlock | converter/src/CsvWriter.cpp:253-283 | one block's part of a line: its row, or empties behind its last one |
| SharedCsv.WriteShared | converter/src/CsvWriter.cpp:248-285 | a time and a frequency block side by side, each with one row per grid position and every channel's interpolated value, blank outside its range and where a sample is no number, the shorter block padded |
| SharedCsv.LoadShared | converter/src/SignalIO.cpp:356-375 | the line loop collects for each signal the lines whose axis and value fields are filled |
| SharedCsv.BlocksComeApart | converter/src/SignalIO.cpp:356-375 | every signal gets the column of its own block, whatever stands beside and below it |
| SharedCsv.RefinementDrawsTheSame | converter/src/SignalIO.cpp:356-390 | extra points on a channel's line do not change the line |
| SharedCsv.InterpIsLine | converter/src/CsvWriter.cpp:35-51 | what the lower-bound interpolator writes lies on the line of the channel's numbers |
| SharedCsv.FilledExactly | converter/src/CsvWriter.cpp:35-51 | a cell is written exactly where the channel has a number or lies between two neighbouring ones |
| SharedCsv.ColumnComesBack | converter/src/CsvWriter.cpp:35-51 | of a channel with gaps, a written column refines the signal of its numbers: same ends, all of them, all points on its line; nothing if it has none |
| SharedCsv.SharedCsvKeepsLines | converter/src/CsvWriter.cpp:218-286 | saving and reopening keeps the line of every channel's numbers, its range and all of them |
| SharedCsv.SaveAndLoad | converter/src/CsvWriter.cpp:218-286 | the round trip performed on any time and frequency channels: each that strictly increases comes back refined, with a sample at exactly those times of any channel where it has a number or lies between two, and of each in time order the numbers leading a run come back at their own times |
| SharedCsv.FirstsComeBack | converter/src/CsvWriter.cpp:332-333 | of a channel with repeated times exactly the runs that start with a number come back at their times, with that number |
| SharedCsv.RepeatsAreTheLoss | converter/src/CsvWriter.cpp:332-336 | so the rows lost are the repeats counted and the runs that start with a gap; the numbers lost are the repeats if and only if no repeat is a gap, and without gaps the count is exact |
| SharedCsv.ScanRepeated | converter/src/CsvWriter.cpp:325-343 | the scan reports the total lost, the channels affected and the first of those losing most |
| ColumnLetters.ColumnLetter | converter/src/ConverterProfile.cpp:150-159 | the prepending loop gives the letters of the column |
| ColumnLetters.LabelToCol | converter/src/TabularSource.cpp:60-67 | the accumulating loop gives the column of a label, -1 for what is no label |
| ColumnLetters.ColumnOfLetters | converter/src/TabularSource.cpp:49-67 | every column index comes back from its letters |
| ColumnLetters.LettersOfColumn | converter/src/TabularSource.cpp:49-67 | every upper-case label is the letters of its column |
| ColumnLetters.LettersInOrder | converter/src/ConverterProfile.cpp:150-159 | columns from left to right have their letters in spreadsheet order: shorter ones first, then alphabetically |
| TabularImport.ReadRows | converter/src/TabularSource.cpp:337-357 | a sample for every row that reaches both columns and whose X cell is not blank |
| TabularImport.UnitsAgree | converter/src/TabularSource.cpp:200-229 | the same moment, or frequency, in any unit is read as the same position, and nanoseconds as they are |
| TabularImport.IndexColumns | converter/src/TabularSource.cpp:101-118 | the X table by letters, the first X column, and the signals in order |
| TabularImport.FirstXIsFirst | converter/src/TabularSource.cpp:106-113 | the default X column is the first usable one, and there is none only if no column is usable |
| TabularImport.TableHasLast | converter/src/TabularSource.cpp:106-113 | under the same letters the last X column counts |
| TabularImport.SignalsInOrder | converter/src/TabularSource.cpp:114-118 | the signals are exactly the columns of that role with a label, in their order |
| TabularImport.ReadAll | converter/src/TabularSource.cpp:305-462 | a series per signal read against its X column, or the refusal the first signal without one causes |
| TabularImport.Apply | converter/src/TabularSource.cpp:89-462 | empty source, no signals, unpinned mixed axes, unresolved X column, or one series per signal |
| SignalCsv.Describe | converter/src/CsvWriter.cpp:170-183 | two descriptors per channel, the signal pointing at the X column in front of it |
| SignalCsv.FindOrigin | converter/src/CsvWriter.cpp:119-126 | the earliest first sample of the time channels, or 0 |
| SignalCsv.OriginIsEarliest | converter/src/CsvWriter.cpp:119-126 | that is the first time of some time channel and later than none of the others' |
| SignalCsv.WriteRow | converter/src/CsvWriter.cpp:301-315 | the cell pair of every channel, two blanks behind its last sample |
| SignalCsv.WriteRows | converter/src/CsvWriter.cpp:287-318 | header if wanted, then as many rows as the longest channel has samples |
| SignalCsv.ProfileFromColumns | converter/src/ConverterProfile.cpp:211-243 | the two passes give every column its letters and every signal the letters of its X column |
| SignalCsv.EachFindsItsX | converter/src/ConverterProfile.cpp:230-242 | each signal is resolved to its own X column, for any number of channels |
| SignalCsv.XReadsBack | converter/src/TabularSource.cpp:200-229 | an X cell is read back as the time it was written for, less the origin in relative mode |
| SignalCsv.SamplesOfRows | converter/src/TabularSource.cpp:337-357 | the rows of the written grid give back the channel's samples although shorter channels leave blanks |
| SignalCsv.ExportThenImport | converter/src/CsvWriter.cpp:287-319 | write, describe, build the profile and import: the exact result for any channels, with or without header |
| SignalCsv.RestoresExactly | converter/src/TabularSource.cpp:337-363 | with absolute times every channel returns sample for sample if and only if a header was written, there is a sample, and no value is NaN |
| AmsProtocol.CoreStep | ads/src/RouterAdsClient.cpp:229-285 | every step keeps locks, map entries and call frames in order |
| AmsProtocol.WaitersStep | ads/src/RouterAdsClient.cpp:237-251 | no step drops a waiting call from the map, unless a later request took its id over |
| AmsProtocol.InvAlways | ads/src/RouterAdsClient.cpp:215-285 | the invariant holds in every reachable state, for any interleaving of callers, reader and peer |
| AmsProtocol.NoDanglingDereference | ads/src/RouterAdsClient.cpp:269-284 | the reader never follows a pointer to a frame that is gone |
| AmsProtocol.StaleExactly | ads/src/RouterAdsClient.cpp:279-284 | in every reachable state an entry's call is gone, or its next step returns it and leaves the pointer stale, if and only if the reader's drain has visited that entry |
| AmsProtocol.StalePointersOnlyInDrain | ads/src/RouterAdsClient.cpp:279-284 | so the map points to a returned call only while the reader drains it under the map lock, and to one it has woken |
| AmsProtocol.DrainHoldsStalePointer | ads/src/RouterAdsClient.cpp:279-284 | a run in which it does |
| AmsProtocol.RepliesMatch | ads/src/RouterAdsClient.cpp:269-276 | a call that returns a reply returns one with its own invoke id, any other returns the timeout error |
| AmsProtocol.CompletedAtMostOnce | ads/src/RouterAdsClient.cpp:271-283 | at most one completion reaches each call |
| AmsProtocol.RegisteredBeforeLookup | ads/src/RouterAdsClient.cpp:237-242 | no reply is looked up before its call has registered |
| AmsProtocol.ReplyReachesItsCall | ads/src/RouterAdsClient.cpp:269-276 | the lookup finds the call if it still waits and no later request took its id over |
| AmsIds.IdsRepeatExactly | ads/src/RouterAdsClient.cpp:215-219 | in every run two requests carry the same id if and only if a multiple of 2^32 requests lies between them |
| AmsIds.IdsDiffer | ads/src/RouterAdsClient.cpp:215-219 | so with at most 2^32 requests sent all ids differ |
| AmsIds.OwnReplyOrWrapped | ads/src/RouterAdsClient.cpp:269-276 | in every run a call that returns a reply the peer made to some request returns the reply to its own request, or to one a multiple of 2^32 requests away |
| AmsIds.OwnReply | ads/src/RouterAdsClient.cpp:237-276 | with at most 2^32 requests sent it is the reply to its own request |
| AmsIds.ReplyReachesCaller | ads/src/RouterAdsClient.cpp:269-276 | and the lookup of a reply finds the call it answers, if that call still waits |
| AmsDeadlock.ReturnsUnlessDeadlocked | ads/src/RouterAdsClient.cpp:243-285 | in every reachable state a timed-out call can still return if and only if the reader need not lock the frame of a timed-out call before it frees the map lock |
| AmsDeadlock.DeadlockForever | ads/src/RouterAdsClient.cpp:243-285 | otherwise no continuation takes any timed-out call further |
| AmsDeadlock.DeadlockLasts | ads/src/RouterAdsClient.cpp:243-285 | no step ends the deadlock or moves a timed-out call |
| AmsDeadlock.ReturnsAfterReader | ads/src/RouterAdsClient.cpp:269-284 | without it the reader comes to the end of its lookup or drain, and the call returns |
| AmsDeadlock.ReturnsAfterCall | ads/src/RouterAdsClient.cpp:237-247 | another call holding the map lock lets go of it, and the call returns |
| AmsDeadlock.TimeoutCanMeetReply | ads/src/RouterAdsClient.cpp:243-273 | a run in which a timing-out call and the reader handing over a reply wait for each other's lock |
| AmsDeadlock.TimeoutCanMeetDrain | ads/src/RouterAdsClient.cpp:243-282 | a run in which a timing-out call and the reader draining the map wait for each other's lock |

## Left out

- IEEE rounding, the text of numbers, `llround` of output timestamps: exact arithmetic and abstract cells stand for them, so the CSV and HTML round trips say nothing about digits; output bins and revertFFT timestamps are not modelled.
- sin, cos, abs, arg and polar: the roots are any numbers with root(2) = -1, root(2m)^2 = root(m) and modulus 1, and polar(abs z, arg z) = z is taken as given; which way round the circle the roots go is left open.
- Qt's character tables, case folding, `trimmed` of the importer and the array-declaration pattern: parameters with the few facts used; `trimmed` of the formula engine is modelled.
- Text of notes, error messages, hints and warnings, JSON, HTML and file handling: only which error, limit or skipped name arises.
- Spectrum.RevertFft: requires bins - 1 to be a power of two once the length check passes; other lengths run over the array in the source.
- Interpolation.InterpAt: channels in time order with a number at every sample; NaN samples and times that go back are not modelled.
- Elementwise.ElementwiseBinary: likewise; the output's domain, unit and start time are not modelled.
- SharedCsv.WriteShared: the header and metadata lines and the text of numbers are not modelled.
- SharedCsv.LoadShared: fields are positions, numbers or blank, and which column belongs to which axis is given; reading that from metadata or headers is not modelled, and signals it drops for having no number are empty here.
- ScopePage.ReadAt: the lazily cached index is rebuilt at each call.
- HtmlIsland.BuildIslandDomain: origins, axes, colours and number formatting are not modelled, and `buildChart`, whose emit loop is the same, is not modelled a second time.
- PlcNames.ExpandArraySymbol: element counts are unbounded here, so it speaks of declarations whose element count fits 63 bits (`PlcDims.FittingIsAccepted`); the text pattern of a declaration is a parameter; comments, ADST codes and array lengths of symbols are not modelled.
- PlcNames.ElementsTile: for symbols that end within the 32-bit address space; the wrapping addition itself is modelled.
- TypeTableLayout.LeavesAreTidy: for symbols whose bytes, and bits where the table has bit members, are addressable in 32 bits; the wrapping arithmetic itself is modelled.
- TypeTableListing.ExpandAggregates: the report object is always asked for; limit notes are recorded by name.
- TypeTableListing.ExpandOne: how much of an aggregate that was cut is reported as not recordable is left open; of complete ones it is exact.
- `parseAdsTypeTable`: the table is taken as parsed; its sub-items are bounded only by the whole blob.
- FormulaFixpoint.SettledIsFixedPoint: starts from a store without derived channels; with old ones in it `FormulaOrder.InOrderIsRight` and `FormulaOrder.RightExactlyInOrder` speak.
- FormulaEngine.Engine.RecomputeAll: from stores that lack a channel used from a formula's own place on through bare references, what more than one pass leaves is not characterised further (`FormulaOrder.SecondPassUndoes`).
- FormulaParser.Parser.Additive: signals are values of an abstract algebra, so sharing of one signal object and the copy made of a bare reference are not modelled, nor are the name and source text kept in a signal's metadata.
- TabularImport.Apply: sample-rate columns, row ranges per column, time offsets and the collapsing of equal timestamps or values are not modelled; a profile built from CSV metadata sets none of them.
- ColumnLetters.LabelToCol: 32-bit overflow of labels beyond the last int column is not modelled.
- AmsProtocol.InvAlways: sockets, notifications and failing sends are outside; invoke ids wrap at 2^32; progress is claimed only as far as `AmsDeadlock.ReturnsUnlessDeadlocked` goes, and the drain may take the entries of the map in any order.
- Filters, PT, Reverse, element-wise mathematics, window functions, BandZero and BandKeep, layout JSON and row-range parsing: they would add easy members only.
- `valueAt` of the page and `splitFormulaLine` on names containing `]`: the code makes no promise there that could be proved.
