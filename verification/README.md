# ASKAPsoft core logic in Dafny

This project models the sequential, statable layer of ASKAPsoft, the
processing software of the Australian SKA Pathfinder radio telescope, and
proves properties of it. The layer is spread over many components. Each
is one Dafny module, modelled as pure functions over sequences, maps and
records. Visibilities, fluxes and times are `real` values or abstract
parameters. MPI, Ice and casacore calls become inputs to the model.

| module | what it models |
|---|---|
| `Common` | `Option`/`Result`, decimal printing, C `atoi`, ASCII lower-casing, stripping, 32-bit wrap-around |
| `MsList` | the command-line option parsers of `mslist` and its default mode |
| `ExpandPattern` | `expandPattern`: `prefix[a..b]suffix` to a list of names |
| `AskapParallel` | the role flags, the connection topology and `%w`/`%n` substitution |
| `ContinuumNVSS` | the fixed-column NVSS catalogue line: `define` and `print` |
| `VOTableParser` | `parseComponentRowField`: dispatch of a VOTable field by UCD, then by name |
| `CatalogueElement` | the validation done when a CASDA catalogue element is built |
| `ImgStat` | the inner-quarter corners of `imgstat` |
| `TosMetadata` | the telescope-metadata record and its antenna table |
| `IceServer` | the Python Ice `Server`: configuration source, parameter lookup, `wait_for_service`, set-up order |
| `IngestServer` | `IngestManager`: get-or-create of the IceStorm topic and the subscription |
| `Odometer` | column-major positions of an N-d shape, advanced as an odometer |
| `ImgNaN2Zero` | `imgNaN2zero`: the walk over every pixel, NaN replacement and the NaN count |
| `PlaneIter` | the multi-dimensional plane iterator, as its unit test pins it |
| `GridderFactory` | `VisGridderFactory`: registry, library-name derivation, `make` and gridder options |
| `TableVisGridder` | integer offsets, the on-grid test, sample counting, padding and sum-of-weights shape |
| `NonzeroRanges` | `findnonzeroranges`: outlier clipping, run extraction and change detection |
| `MsSplit` | `mssplit`: row filters, kept-row runs, split validation, bucket and tile sizing, channel averaging |
| `CalSolutionTable` | the table calibration-solution source and its channel adapter, as the unit test pins them |
| `Calibrator` | `CalibratorParallel`: solve flags, buffer maxima, parameter initialisation, LSQR keys, chunk flags |
| `CasdaPolarisation` | the CASDA polarisation catalogue entry: column printing and checking |
| `SchemaGenerate` | the ODB schema text generator for sky-model fields |
| `ChannelMerge` | `ChannelMergeTask`: rank roles, cube filling, time alignment and consistency checks |
| `DuchampParallel` | `is2D`, the worker search criteria, master clean-up (partition, filter, stable sort, numbering), round-robin distribution, combined means |
| `PolConverter` | polarisation frames: text form, canonical frames, `getIndex`, the missing-polarisation check |

Three modules model code whose implementation is not part of this model:
`PlaneIter`, `CalSolutionTable` and `PolConverter`. They follow the behaviour
that the components' unit tests assert. Where those tests leave a case open,
the choice the model makes is listed under "## Left out".

The Ice service wrapper behaves as follows:
- a failure while subscribing is raised as a `RuntimeError` with one fixed
  message;
- a timeout is a `TimeoutError` naming the service;
- the monitoring adapter is activated before the subclass set-up, and the
  main adapter after it;
- `get_config` scans every command-line argument, the program name included,
  for `--config=`;
- an argument holding a second `=` fails when it is unpacked;
- the first step of the set-up that raises, or that is still waiting, ends
  it there: reading the configuration, the monitoring adapter's activation,
  the subclass set-up, adding a service, the main adapter's activation.

## Model

| member | source | states |
|---|---|---|
| Common.CollectMeaning | Code/Components/Services/skymodel/current/schema_generation/generate.py:131-139 | walking the rows succeeds exactly when every row converts, and then the i-th result is the i-th row's value; the first failure is the walk's result |
| Common.NatToStringInjective | Code/Components/CP/pipelinetasks/current/makecube/CubeMakerHelperFunctions.cc:83-91 | distinct numbers print as distinct decimal strings |
| Common.DigitsValueOfNatToString | Code/Components/CP/pipelinetasks/current/makecube/CubeMakerHelperFunctions.cc:83-91 | the decimal text printed for a number reads back as that number |
| Common.AtoiOfIntToString | Code/Components/Synthesis/synthesis/current/apps/mslist.cc:102-115 | `atoi` of a printed integer, negative ones included, gives the integer back, and C defines that reading exactly when the integer fits a 32-bit `int` |
| Common.AtoiOfNonNumeric | Code/Components/Synthesis/synthesis/current/apps/mslist.cc:102-115 | `atoi` of text whose first non-blank character is neither a sign nor a digit gives 0 |
| Common.ShortAtoiDefined | Code/Components/Analysis/analysisutilities/current/modelcomponents/ContinuumNVSS.cc:78-98 | `atoi` of a column of at most nine characters, such as the record number and the residual flux, is always defined: its value fits a 32-bit `int` |
| Common.ReplacePairAbsent | Code/Base/mwcommon/current/mwcommon/AskapParallel.cc:211 | a global substitution of a two-character token leaves text without the token unchanged |
| Common.ReplacePairRemovesAll | Code/Base/mwcommon/current/mwcommon/AskapParallel.cc:211 | after a global substitution with a non-empty replacement that neither holds the token's first character nor starts with its second, the token no longer occurs |
| Common.ReplacePairCreatesNoOther | Code/Base/mwcommon/current/mwcommon/AskapParallel.cc:224 | substituting one token cannot create another two-character token with the same first character that was absent before |
| Common.StripMeaning | Code/Components/Services/skymodel/current/schema_generation/generate.py:82-85 | Python's `strip()` keeps a contiguous middle of the text that neither starts nor ends with white space and removes only white space on either side |
| Common.StripIdempotent | Code/Components/Services/skymodel/current/schema_generation/generate.py:82-85 | stripping stripped text changes nothing |
| AskapParallel.RolesOf | Code/Base/mwcommon/current/mwcommon/AskapParallel.cc:105-107 | a process is parallel exactly when there is more than one node and master exactly when its rank is 0; a serial process is always a worker, and a parallel one is exactly one of master and worker |
| AskapParallel.RolesPartition | Code/Base/mwcommon/current/mwcommon/AskapParallel.cc:105-107 | among the ranks of a parallel job exactly one is the master and the other nNode - 1 are workers |
| AskapParallel.CountRoleBelow | Code/Base/mwcommon/current/mwcommon/AskapParallel.cc:105-107 | counting the ranks below n of a parallel job finds one master (none when n is 0) and n - 1 workers |
| AskapParallel.Connections | Code/Base/mwcommon/current/mwcommon/AskapParallel.cc:176-195 | a serial process opens no connection; in parallel mode the master connects to ranks 1 to nNode-1 in order and every worker connects once, to rank 0 |
| AskapParallel.ConnectionsSymmetric | Code/Base/mwcommon/current/mwcommon/AskapParallel.cc:176-195 | in parallel mode the connections form a star around rank 0: a links to b exactly when b links to a, exactly when one of them is rank 0 |
| AskapParallel.SubstituteWithoutTokens | Code/Base/mwcommon/current/mwcommon/AskapParallel.cc:197-227 | a string that contains neither "%w" nor "%n" comes back unchanged |
| AskapParallel.SubstituteRemovesTokens | Code/Base/mwcommon/current/mwcommon/AskapParallel.cc:197-227 | after substitution no "%w" and no "%n" is left, because the replacement numbers hold no '%' |
| AskapParallel.SubstituteExample | Code/Base/mwcommon/current/mwcommon/AskapParallel.cc:201-225 | rank 3 of five processes turns "%w.%n" into "2.4": the worker number counts from 0 and "%n" is the number of workers |
| MsList.ValueOf | Code/Components/Synthesis/synthesis/current/apps/mslist.cc:94-95 | the value is the text after the first '='; without an '=' the position wraps to 0 and the whole argument is the value |
| MsList.PassMsParameter | Code/Components/Synthesis/synthesis/current/apps/mslist.cc:68-77 | the result is the first argument after the program name that does not start with '-', or "" when every argument does |
| MsList.PassFlagParameter | Code/Components/Synthesis/synthesis/current/apps/mslist.cc:79-85 | true exactly when some argument after the program name equals the flag exactly |
| MsList.FindFlagged | Code/Components/Synthesis/synthesis/current/apps/mslist.cc:91-98 | finds the first argument after the program name starting with the option name, or reports that none does |
| MsList.PassFlaggedString | Code/Components/Synthesis/synthesis/current/apps/mslist.cc:87-100 | the value of the first argument starting with the option name, later matches ignored; the default when none matches |
| MsList.PassFlaggedLong | Code/Components/Synthesis/synthesis/current/apps/mslist.cc:102-115 | `atoi` of the first matching argument's value, so a non-numeric value gives 0; the default when none matches; an error exactly when that value leaves `int`, where C leaves `atoi` undefined |
| MsList.PassFlaggedBool | Code/Components/Synthesis/synthesis/current/apps/mslist.cc:117-140 | a value reading as 0 gives false, as 1 gives true, anything else is an error, as is a value whose `atoi` is undefined; the default when no argument matches |
| MsList.DefaultMode | Code/Components/Synthesis/synthesis/current/apps/mslist.cc:189-193 | with none of brief, full, what, how, tables or data requested, brief and verbose are both forced on and nothing else; otherwise the modes are kept |
| MsList.ParseCommandLine | Code/Components/Synthesis/synthesis/current/apps/mslist.cc:147-177 | it fails exactly when there are fewer than two entries or the pagerows value leaves `int`; otherwise the modes are the exact flags after the default rule, msfile is the first argument not starting with '-', each of the nine text options holds its first match's value or "", and pagerows holds the `atoi` of its first match or 50 |
| MsList.PagerowsRoundTrip | Code/Components/Synthesis/synthesis/current/apps/mslist.cc:102-115 | an integer printed into "--pagerows=" reads back as that integer, and the reading is defined exactly when the integer fits an `int` |
| ExpandPattern.GroupDigitsAreMaximal | Code/Components/CP/pipelinetasks/current/makecube/CubeMakerHelperFunctions.cc:72 | the regular expression's digit runs are whole: the two numbers of a group at a position are fixed by the text |
| ExpandPattern.ParseGroupAt | Code/Components/CP/pipelinetasks/current/makecube/CubeMakerHelperFunctions.cc:72 | a group recognised at a position is a "[digits..digits]" group there |
| ExpandPattern.ParseGroupAtComplete | Code/Components/CP/pipelinetasks/current/makecube/CubeMakerHelperFunctions.cc:72 | every "[digits..digits]" group at a position is recognised, with the digits it holds |
| ExpandPattern.GroupHasBrackets | Code/Components/CP/pipelinetasks/current/makecube/CubeMakerHelperFunctions.cc:58-72 | a text holding a group holds both '[' and ']', so the bracket checks never reject a pattern the regular expression accepts |
| ExpandPattern.NoBracketsNoGroup | Code/Components/CP/pipelinetasks/current/makecube/CubeMakerHelperFunctions.cc:58-72 | a text lacking '[' or ']' holds no group |
| ExpandPattern.LastGroupBelowMeaning | Code/Components/CP/pipelinetasks/current/makecube/CubeMakerHelperFunctions.cc:72-78 | the search from the right finds a group with none starting between it and the limit, or reports that no group starts below the limit |
| ExpandPattern.LastGroup | Code/Components/CP/pipelinetasks/current/makecube/CubeMakerHelperFunctions.cc:72-78 | the group the greedy ".*" leaves to the regular expression is a group with none starting after it; when there is none the pattern holds no group at all |
| ExpandPattern.Expand | Code/Components/CP/pipelinetasks/current/makecube/CubeMakerHelperFunctions.cc:55-91 | a pattern without '[' fails with "Could not find [ in valid range expression"; one with '[' but no ']' fails with "Could not find ] in valid range expression"; the lemmas below give the other outcomes |
| ExpandPattern.ExpandSucceedsIffGroup | Code/Components/CP/pipelinetasks/current/makecube/CubeMakerHelperFunctions.cc:72-81 | the expansion succeeds exactly when the last "[digits..digits]" group has both numbers within `int`; a pattern with a group either succeeds or fails converting a bound, and one without a group is an error |
| ExpandPattern.ExpandNames | Code/Components/CP/pipelinetasks/current/makecube/CubeMakerHelperFunctions.cc:62-91 | on success both bounds fit an `int` and the names are prefix + decimal(i) + suffix for i from the last group's first number to its second, ascending, one name per integer and none when the range is empty; the prefix is the text before the first '[' and the suffix the text after the first ']' |
| ExpandPattern.NamesMeaning | Code/Components/CP/pipelinetasks/current/makecube/CubeMakerHelperFunctions.cc:83-91 | the names run from begin to end ascending: end-begin+1 of them when begin <= end, none otherwise |
| ExpandPattern.NamesDistinct | Code/Components/CP/pipelinetasks/current/makecube/CubeMakerHelperFunctions.cc:85-89 | names built from one prefix and suffix are pairwise distinct |
| ExpandPattern.LastGroupIs | Code/Components/CP/pipelinetasks/current/makecube/CubeMakerHelperFunctions.cc:72-78 | a group after which no other starts is the one the regular expression reports |
| ExpandPattern.ExpandFromLastGroup | Code/Components/CP/pipelinetasks/current/makecube/CubeMakerHelperFunctions.cc:76-91 | once the last group is known, the result is the list of names over its range when both bounds fit an `int`, and the conversion error otherwise |
| ExpandPattern.SingleGroupExpansion | Code/Components/CP/pipelinetasks/current/makecube/CubeMakerHelperFunctions.cc:55-91 | a pattern with one group and no other brackets expands to prefix + i + suffix for every i of the group's range, once both bounds fit an `int` |
| ExpandPattern.TwoGroupsMixFirstBracketsWithLastRange | Code/Components/CP/pipelinetasks/current/makecube/CubeMakerHelperFunctions.cc:62-79 | with two groups the prefix and suffix come from the first brackets but the range from the last group: the names run over the second range and each keeps the whole second group in its suffix; a bound beyond `int` is the conversion error |
| ContinuumNVSS.Substr | Code/Components/Analysis/analysisutilities/current/modelcomponents/ContinuumNVSS.cc:75-102 | `substr(pos, n)` takes n characters from pos, clipped at the end of the line |
| ContinuumNVSS.Colons | Code/Components/Analysis/analysisutilities/current/modelcomponents/ContinuumNVSS.cc:104-115 | every blank becomes ':' and every other character is kept, so the length is unchanged and no blank is left |
| ContinuumNVSS.Define | Code/Components/Analysis/analysisutilities/current/modelcomponents/ContinuumNVSS.cc:72-126 | a line shorter than 194 characters is an error naming the first `substr` start it does not reach; otherwise every fixed column is stored: the numeric ones as the text `atof` reads, name = line[63..77), RA and Dec strings = line[78..89) and line[90..101), RA and Dec those strings with every blank turned into ':', ID = name, record and residual through `atoi` and always defined, the axes 0 when their limit column holds '<', flux = S1400/1000, spectral index and curvature 0 |
| ContinuumNVSS.Print | Code/Components/Analysis/analysisutilities/current/modelcomponents/ContinuumNVSS.cc:158-160 | the output is the stored input line followed by a newline |
| ContinuumNVSS.PrintOfDefine | Code/Components/Analysis/analysisutilities/current/modelcomponents/ContinuumNVSS.cc:158-160 | parsing a full-length line and printing the component gives back exactly that line and a newline |
| ContinuumNVSS.BlanksOfColons | Code/Components/Analysis/analysisutilities/current/modelcomponents/ContinuumNVSS.cc:104-115 | replacing blanks by ':' loses nothing for text without ':' |
| ContinuumNVSS.NameAndRaRoundTrip | Code/Components/Analysis/analysisutilities/current/modelcomponents/ContinuumNVSS.cc:82-117 | a name written into columns 63-76 of a full-length line becomes the component's ID, and an RA string written into columns 78-88 comes back with ':' separators |
| VOTableParser.FirstFrom | Code/Components/Services/skymodel/current/service/VOTableParser.h:71-227 | the position found is the first, from the given start, whose member passes the test; when none is found no member from the start on passes |
| VOTableParser.FirstMatch | Code/Components/Services/skymodel/current/service/VOTableParser.h:71-227 | the branch taken is the first in chain order whose UCD (or, for the last two, field name) equals the cell's ignoring ASCII case, and none before it matches; without a match no branch does |
| VOTableParser.Store | Code/Components/Services/skymodel/current/service/VOTableParser.h:72-80 | the matched branch stores the cell exactly when the unit is one it allows and the datatype is the one it asserts, and then sets only that member of the row's component |
| VOTableParser.ParseComponentRowField | Code/Components/Services/skymodel/current/service/VOTableParser.h:59-228 | a row outside any of the three buffers is an error; a successful update leaves the RA and Dec buffers and every other row unchanged |
| VOTableParser.ParseDispatch | Code/Components/Services/skymodel/current/service/VOTableParser.h:71-227 | a cell that no branch matches changes nothing; a cell the i-th branch matches is stored in that branch's member exactly when its unit and datatype are the ones asserted |
| VOTableParser.FieldsDistinct | Code/Components/Services/skymodel/current/service/VOTableParser.h:71-227 | each of the 26 branches writes a different member, and every member has a branch |
| VOTableParser.NameRulesLast | Code/Components/Services/skymodel/current/service/VOTableParser.h:71-227 | the first 24 branches test the UCD and only the last two test the field name |
| VOTableParser.NameMatchOnlyWithoutUcd | Code/Components/Services/skymodel/current/service/VOTableParser.h:214-227 | a name-keyed branch is taken only when no UCD-keyed branch matched |
| VOTableParser.FirstFromAgrees | Code/Components/Services/skymodel/current/service/VOTableParser.h:71-227 | two tests that agree on every member from a position on pick the same branch |
| VOTableParser.CaseInsensitive | Code/Components/Services/skymodel/current/service/VOTableParser.h:71 | `boost::iequals`: UCDs and names equal up to ASCII case select the same branch |
| VOTableParser.ParseIgnoresCase | Code/Components/Services/skymodel/current/service/VOTableParser.h:59-228 | the whole update is the same for UCDs and names that differ only in ASCII case |
| CatalogueElement.LastIndexOf | Code/Components/CP/pipelinetasks/current/casdaupload/CatalogueElement.cc:54 | the position found holds the character and none follows it; there is none exactly when the character is absent |
| CatalogueElement.FileName | Code/Components/CP/pipelinetasks/current/casdaupload/CatalogueElement.cc:54 | the file name is the part of the path after its last '/', holding no '/' |
| CatalogueElement.Extension | Code/Components/CP/pipelinetasks/current/casdaupload/CatalogueElement.cc:54 | the extension is empty or starts at the file name's last '.', holding no further '.' and no '/' |
| CatalogueElement.NewElement | Code/Components/CP/pipelinetasks/current/casdaupload/CatalogueElement.cc:49-63 | an element is made exactly when the extension is ".xml" and the type is one of the five catalogue kinds; a wrong extension is reported first, whatever the type; the element is named "catalogue" with format "votable" |
| CatalogueElement.FileNameSuffix | Code/Components/CP/pipelinetasks/current/casdaupload/CatalogueElement.cc:54 | a trailing part without '/' stays at the end of the file name |
| CatalogueElement.XmlSuffixIsExtension | Code/Components/CP/pipelinetasks/current/casdaupload/CatalogueElement.cc:54 | every path ending in ".xml" passes the extension check |
| CatalogueElement.ExtensionCheckedFirst | Code/Components/CP/pipelinetasks/current/casdaupload/CatalogueElement.cc:54-62 | a file with another extension is refused with the extension message whatever its type |
| ImgStat.LastOnFirstAxes | Code/Components/Synthesis/synthesis/current/apps/imgstat.cc:112-118 | the corner starts as the last pixel on the first two axes and 0 on every further axis |
| ImgStat.InnerQuarter | Code/Components/Synthesis/synthesis/current/apps/imgstat.cc:109-124 | a shape with fewer than two axes is refused with "Need 2D images"; the slice exists exactly when both of the first two axes are non-empty, and then runs from n/4 to 3(n/4) on each of them and covers only the first plane of every further axis |
| ImgStat.QuarterInside | Code/Components/Synthesis/synthesis/current/apps/imgstat.cc:119-124 | on a non-empty axis the quarter lies inside it: 0 <= n/4 <= 3(n/4) < n |
| ImgStat.SliceInsideImage | Code/Components/Synthesis/synthesis/current/apps/imgstat.cc:119-125 | on an accepted shape the slice is non-empty on every axis and lies inside the image |
| TosMetadata.New | Code/Components/CP/common/current/cpcommon/TosMetadata.cc:40-42 | a new object has time 0, scan id -1, is not flagged and holds no antenna |
| TosMetadata.SetTime | Code/Components/CP/common/current/cpcommon/TosMetadata.cc:54-57 | setting the time changes only the time |
| TosMetadata.SetScanId | Code/Components/CP/common/current/cpcommon/TosMetadata.cc:64-67 | setting the scan id changes only the scan id |
| TosMetadata.SetFlagged | Code/Components/CP/common/current/cpcommon/TosMetadata.cc:74-77 | setting the flag changes only the flag |
| TosMetadata.NAntenna | Code/Components/CP/common/current/cpcommon/TosMetadata.cc:44-47 | the count is the list size as a 32-bit unsigned value |
| TosMetadata.FindName | Code/Components/CP/common/current/cpcommon/TosMetadata.cc:82-87 | the duplicate search succeeds exactly when some antenna in the list has the name |
| TosMetadata.AddAntenna | Code/Components/CP/common/current/cpcommon/TosMetadata.cc:79-93 | a name already present is refused with "An antenna with this name already exists"; otherwise the antenna is appended, nothing else changes, and its index, the old size, is returned |
| TosMetadata.CheckAntennaIdAsWritten | Code/Components/CP/common/current/cpcommon/TosMetadata.cc:112-117 | as written, the index passes when id + 1, computed in 32-bit unsigned arithmetic, does not exceed the count; below the largest value this is id < count |
| TosMetadata.MaxIdPassesCheck | Code/Components/CP/common/current/cpcommon/TosMetadata.cc:114 | the largest 32-bit index wraps to 0 when incremented and so passes the check on any list, though no list holds that index |
| TosMetadata.CheckAgreesBelowMax | Code/Components/CP/common/current/cpcommon/TosMetadata.cc:112-117 | below the largest 32-bit value the written and the intended check agree |
| TosMetadata.GetAntenna | Code/Components/CP/common/current/cpcommon/TosMetadata.cc:100-110 | with the intended check, an index below the count returns the antenna at that position and any other is "Invalid antenna index" |
| TosMetadata.AddThenGet | Code/Components/CP/common/current/cpcommon/TosMetadata.cc:79-110 | adding keeps names distinct, grows the count by one, the returned index reads back the new antenna and every earlier index reads what it read before |
| TosMetadata.DuplicateKeepsList | Code/Components/CP/common/current/cpcommon/TosMetadata.cc:83-86 | adding a name already in the list is refused |
| TosMetadata.SettersRoundTrip | Code/Components/CP/common/current/cpcommon/TosMetadata.cc:49-77 | a value set is the value read back, and the other fields do not move |
| IceServer.NewServer | Code/Base/py-iceutils/current/askap/iceutils/server.py:63-79 | a new server keeps the FCM key and retry budget given, with monitoring off and configuration on |
| IceServer.FirstWithPrefix | Code/Base/py-iceutils/current/askap/iceutils/server.py:96-97 | finds the first argument from a position on that starts with the key, or reports that none does |
| IceServer.GetConfig | Code/Base/py-iceutils/current/askap/iceutils/server.py:87-103 | a server that is not configurable reads nothing; a configurable one with no argument starting "--config=" asks the FCM, and with one, the first such argument (the program name included) decides: it fails the two-way split exactly when its value holds another '=', and otherwise names the file |
| IceServer.ConfigArgumentWins | Code/Base/py-iceutils/current/askap/iceutils/server.py:95-103 | a "--config=<path>" argument after arguments that are not one gives that file whatever follows, or the unpack error when the path holds '=' |
| IceServer.GetParameter | Code/Base/py-iceutils/current/askap/iceutils/server.py:115-124 | the value stored under "<service key>.<key>", or the default when that key is absent; before any configuration the lookup fails |
| IceServer.OtherNamespaceIgnored | Code/Base/py-iceutils/current/askap/iceutils/server.py:124 | entries under any other full key never change a lookup's answer |
| IceServer.WaitFrom | Code/Base/py-iceutils/current/askap/iceutils/server.py:135-163 | the retry loop: a success returns the callback's value, any other exception propagates at once, and a connectivity failure gives up with "Couldn't connect to <name>: " when a non-negative budget equals the failures so far; every attempt before the last was a connectivity failure |
| IceServer.Wait | Code/Base/py-iceutils/current/askap/iceutils/server.py:126-163 | from the first attempt: a returned value is the first success after connectivity failures only, and a timeout happens only with a non-negative budget, at attempt budget + 1 |
| IceServer.TimeoutAfterBudget | Code/Base/py-iceutils/current/askap/iceutils/server.py:148-151 | with a budget of N >= 0, N + 1 connectivity failures in a row end the wait with a timeout at exactly that attempt |
| IceServer.UnboundedNeverTimesOut | Code/Base/py-iceutils/current/askap/iceutils/server.py:141-163 | with the default budget of -1, or any negative one, the wait never times out |
| IceServer.FatalFirst | Code/Base/py-iceutils/current/askap/iceutils/server.py:140-147 | an exception outside the five connectivity types propagates on the first attempt |
| IceServer.AddService | Code/Base/py-iceutils/current/askap/iceutils/server.py:199-208 | services are appended in call order, the earlier ones kept |
| IceServer.Binds | Code/Base/py-iceutils/current/askap/iceutils/server.py:182-184 | one binding per added service, in the order added |
| IceServer.Prologue | Code/Base/py-iceutils/current/askap/iceutils/server.py:165-180 | the main adapter is created first, then the configuration read, then (with monitoring) the monitoring adapter created, its provider added and activated, then the subclass set-up; the main adapter is not yet activated |
| IceServer.SetupServices | Code/Base/py-iceutils/current/askap/iceutils/server.py:165-186 | set-up always creates the main adapter and then reads the configuration; a failed split of the configuration argument, or a failed or unfinished read of the file or the FCM, stops it there with that outcome; the subclass set-up runs exactly when the configuration is read and, with monitoring, the monitoring adapter's activation returned; the main adapter's activation is reached exactly when, in addition, the subclass set-up returned and every `_adapter.add` did; otherwise the run ends at the step that failed, with its error; the set-up completes exactly when that activation returns |
| IceServer.SetupOrder | Code/Base/py-iceutils/current/askap/iceutils/server.py:165-186 | a set-up that reaches the main adapter's activation runs adapter creation, configuration, monitoring when enabled, subclass set-up, one binding per service in order, and the main adapter's activation last and only then |
| IceServer.AfterSubclass | Code/Base/py-iceutils/current/askap/iceutils/server.py:182-186 | after a subclass set-up that returned, the services are bound in order; the main adapter's activation is reached exactly when every `_adapter.add` returns, and otherwise the run ends at the add that raised, with its error |
| IceServer.ActivationRun | Code/Base/py-iceutils/current/askap/iceutils/server.py:165-186 | a run that reaches the main adapter's activation had a configuration that split, and is the prologue, one binding per added service and the activation |
| IngestServer.IngestManager | Code/Components/Services/cpmanager/current/askap/ingest/server.py:13-17 | the ingest manager is a server under the key "cp.ingest" with the default retry budget and monitoring switched on |
| IngestServer.ManagerWaitNeverTimesOut | Code/Components/Services/cpmanager/current/askap/ingest/server.py:14-36 | with the default budget the wait for IceStorm never times out |
| IngestServer.GetOrCreate | Code/Components/Services/cpmanager/current/askap/ingest/server.py:38-44 | an existing topic is retrieved once and nothing else is called; otherwise a retrieve is followed by a create, and a third call, a retrieve, happens exactly when another client created the topic in between |
| IngestServer.GetOrCreateBounds | Code/Components/Services/cpmanager/current/askap/ingest/server.py:38-44 | afterwards the topic exists and no other topic was added; there is at most one create and at most two retrieves, no create when the topic already existed, and every call names the topic |
| IngestServer.Subscribe | Code/Components/Services/cpmanager/current/askap/ingest/server.py:46-53 | the subscription succeeds exactly when all four adapter calls do, with an empty QoS filter on the topic; any failure becomes "ICE adapter initialisation failed" |
| IngestServer.TopicSteps | Code/Components/Services/cpmanager/current/askap/ingest/server.py:38-44 | the topic calls appear in the trace in the order made |
| IngestServer.InitializeServices | Code/Components/Services/cpmanager/current/askap/ingest/server.py:19-56 | corrected set-up (see Findings): the observation service is registered and the monitor started first; set-up completes exactly when the manager is found and the subscription succeeds, and then the topic exists; it is still waiting exactly when the manager wait is |
| IngestServer.RegisteredBeforeTopics | Code/Components/Services/cpmanager/current/askap/ingest/server.py:22-50 | for the corrected set-up (see Findings): on success the observation service is the first step, every topic call follows the connection to the manager, and the last step is a subscription with an empty filter |
| IngestServer.InitializeServicesAsWritten | Code/Components/Services/cpmanager/current/askap/ingest/server.py:19-23 | without an `fcm` attribute the set-up raises AttributeError at its first statement, with nothing registered or started; with one it proceeds as the corrected set-up |
| IngestServer.FcmMissingStopsSetup | Code/Components/Services/cpmanager/current/askap/ingest/server.py:22 | with the attributes the manager is given, set-up as written never completes and registers nothing, while the corrected set-up always registers the observation service and can complete |
| IngestServer.ManagerNeverActivates | Code/Components/Services/cpmanager/current/askap/ingest/server.py:19-23 | with the set-up as written, the ingest manager never reaches its main adapter's activation and never completes; once its subclass set-up runs, the run ends with the AttributeError for `fcm` |
| Odometer.PositionOf | Code/Components/Synthesis/synthesis/current/apps/imgNaN2zero.cc:67-83 | the position the odometer reaches after i steps has one digit per axis |
| Odometer.Advance | Code/Components/Synthesis/synthesis/current/apps/imgNaN2zero.cc:77-83 | one step of the odometer keeps one digit per axis |
| Odometer.Origin | Code/Components/Synthesis/synthesis/current/apps/imgNaN2zero.cc:67 | the walk starts at the origin: every digit 0 |
| Odometer.IndexBound | Code/Components/Synthesis/synthesis/current/apps/imgNaN2zero.cc:77-83 | every in-bounds position has a column-major index below the number of elements |
| Odometer.IndexOfPosition | Code/Components/Synthesis/synthesis/current/apps/imgNaN2zero.cc:70-83 | the position reached after i steps, for i below the number of elements, lies in bounds and has column-major index i |
| Odometer.PositionOfIndex | Code/Components/Synthesis/synthesis/current/apps/imgNaN2zero.cc:70-83 | every in-bounds position is the one reached after as many steps as its column-major index |
| Odometer.PositionOfInjective | Code/Components/Synthesis/synthesis/current/apps/imgNaN2zero.cc:70-83 | distinct step counts below the number of elements reach distinct positions, so no pixel is visited twice |
| Odometer.AdvanceInBounds | Code/Components/Synthesis/synthesis/current/apps/imgNaN2zero.cc:77-83 | the odometer never leaves the image |
| Odometer.AdvanceIndex | Code/Components/Synthesis/synthesis/current/apps/imgNaN2zero.cc:77-83 | one step adds one to the column-major index, wrapping to 0 after the last element |
| Odometer.AdvancePosition | Code/Components/Synthesis/synthesis/current/apps/imgNaN2zero.cc:77-83 | stepping from the position of step i reaches the position of step i + 1 |
| Odometer.OriginIsFirst | Code/Components/Synthesis/synthesis/current/apps/imgNaN2zero.cc:67 | on a non-empty image the origin is the position of step 0 |
| ImgNaN2Zero.Repaired | Code/Components/Synthesis/synthesis/current/apps/imgNaN2zero.cc:71-76 | a NaN is written back as 0 and any other value unchanged |
| ImgNaN2Zero.ElementCount | Code/Components/Synthesis/synthesis/current/apps/imgNaN2zero.cc:68 | the loop bound is the number of pixels stored in 32 bits, equal to it below 2^32 |
| ImgNaN2Zero.Nan2Zero | Code/Components/Synthesis/synthesis/current/apps/imgNaN2zero.cc:65-84 | an image of fewer than two axes is rejected; otherwise the first ElementCount pixels in column-major order are written back repaired, the rest unchanged, and the count is the number of NaNs among them |
| ImgNaN2Zero.Walk | Code/Components/Synthesis/synthesis/current/apps/imgNaN2zero.cc:67-84 | after n steps of the odometer the first n pixels are repaired, the others unchanged, and the count is the number of NaNs among the first n |
| ImgNaN2Zero.RepairStep | Code/Components/Synthesis/synthesis/current/apps/imgNaN2zero.cc:71-76 | writing back the pixel under the cursor at step i extends the repaired prefix by one and the count by one exactly when it was NaN |
| ImgNaN2Zero.WholeImageRepaired | Code/Components/Synthesis/synthesis/current/apps/imgNaN2zero.cc:68-84 | an image of fewer than 2^32 pixels is repaired everywhere, leaving no NaN, and the count is its number of NaNs |
| ImgNaN2Zero.EveryPositionOnce | Code/Components/Synthesis/synthesis/current/apps/imgNaN2zero.cc:70-83 | every in-bounds pixel is under the cursor at exactly one step of the walk |
| ImgNaN2Zero.CountNaNsZero | Code/Components/Synthesis/synthesis/current/apps/imgNaN2zero.cc:69-75 | the count is zero exactly when no pixel was NaN |
| PlaneIter.ProductSplits | Code/Base/scimath/current/tests/utils/MultiDimArrayPlaneIterTest.h:54-97 | the array holds one plane-sized block per plane: its size is the plane size times the number of planes |
| PlaneIter.FirstPlaneAtOrigin | Code/Base/scimath/current/tests/utils/MultiDimArrayPlaneIterTest.h:71-76 | the first plane's cursor is the origin of the outer axes |
| PlaneIter.NextPlaneAdvances | Code/Base/scimath/current/tests/utils/MultiDimArrayPlaneIterTest.h:71-76 | one odometer step over the outer axes takes plane k's cursor to plane k + 1's |
| PlaneIter.Start | Code/Base/scimath/current/tests/utils/MultiDimArrayPlaneIterTest.h:71-77 | a fresh iterator is at sequence number 0 over the given shape |
| PlaneIter.Next | Code/Base/scimath/current/tests/utils/MultiDimArrayPlaneIterTest.h:71-77 | each step raises the sequence number by one and keeps the shape |
| PlaneIter.PlanePosition | Code/Base/scimath/current/tests/utils/MultiDimArrayPlaneIterTest.h:76 | a plane's position is 0 on the first two axes and the cursor of its sequence number on the others, inside the array |
| PlaneIter.PlaneShape | Code/Base/scimath/current/tests/utils/MultiDimArrayPlaneIterTest.h:74-83 | the plane shape keeps the first two extents and is 1 on every other axis; its size is the plane size |
| PlaneIter.TagIdentifiesPlane | Code/Base/scimath/current/tests/utils/MultiDimArrayPlaneIterTest.h:63-73 | two planes get the same ".pol<p>.chan<c>" tag exactly when they have the same polarisation and the same channel |
| PlaneIter.DigitFieldsSplit | Code/Base/scimath/current/tests/utils/MultiDimArrayPlaneIterTest.h:63-64 | two digit runs each followed by the same separator, which opens with a non-digit, split a text the same way |
| PlaneIter.GetPlaneVector | Code/Base/scimath/current/tests/utils/MultiDimArrayPlaneIterTest.h:96-99 | the plane vector has as many elements as one plane |
| PlaneIter.PlaneBlockInside | Code/Base/scimath/current/tests/utils/MultiDimArrayPlaneIterTest.h:96-103 | every plane's block lies inside the array |
| PlaneIter.IndexSplits | Code/Base/scimath/current/tests/utils/MultiDimArrayPlaneIterTest.h:81-96 | the flattened index of an element is its in-plane offset plus the plane size times its plane's index among the outer axes |
| PlaneIter.PlaneVectorIsPlane | Code/Base/scimath/current/tests/utils/MultiDimArrayPlaneIterTest.h:87-104 | element j of the plane vector is the array element at row j mod nx, column j / nx of the current plane, so the vector holds exactly that plane in column-major order |
| PlaneIter.Walk | Code/Base/scimath/current/tests/utils/MultiDimArrayPlaneIterTest.h:70-106 | a client loop visits exactly as many planes as there are, numbered 0 upwards, plane k at position (0, 0) followed by the outer cursor of k |
| PlaneIter.CubeOuterPosition | Code/Base/scimath/current/tests/utils/MultiDimArrayPlaneIterTest.h:54-106 | the 2x2x4x3x1 cube has 12 planes and plane k's outer cursor is (k mod 4, k / 4, 0) |
| PlaneIter.CubeIteration | Code/Base/scimath/current/tests/utils/MultiDimArrayPlaneIterTest.h:53-106 | on the test cube every plane has sequence number below 12, position (0, 0, k mod 4, k / 4, 0), tag ".pol<k mod 4>.chan<k / 4>" and shape (2, 2, 1, 1, 1) |
| PlaneIter.CubeTagsDistinct | Code/Base/scimath/current/tests/utils/MultiDimArrayPlaneIterTest.h:53-73 | on the test cube two planes share a tag exactly when they are the same plane, so the twelve tags the test expects are all different |
| GridderFactory.RegisterGridder | Code/Components/Synthesis/synthesis/current/gridding/VisGridderFactory.cc:59-64 | registering adds the name, maps it to the creator given, replacing any earlier one, and leaves every other name as it was |
| GridderFactory.RegisterAll | Code/Components/Synthesis/synthesis/current/gridding/VisGridderFactory.cc:103-113 | registrations in order add exactly their names and leave every other name as it was |
| GridderFactory.FirstOf | Code/Components/Synthesis/synthesis/current/gridding/VisGridderFactory.cc:74 | `find_first_of`: no stop character occurs before the position found, and one occurs at it unless it is the end |
| GridderFactory.LibraryName | Code/Components/Synthesis/synthesis/current/gridding/VisGridderFactory.cc:73-77 | the library name is the lower-cased gridder name cut before its first '.' or '<', and holds neither |
| GridderFactory.LibraryNameIdempotent | Code/Components/Synthesis/synthesis/current/gridding/VisGridderFactory.cc:73-77 | deriving the library name of a library name changes nothing |
| GridderFactory.CreateGridder | Code/Components/Synthesis/synthesis/current/gridding/VisGridderFactory.cc:66-96 | a registered name is built by its creator and the registry kept; otherwise the name's library, if loadable, registers what it registers; the gridder is built exactly when the name is registered afterwards, and otherwise the result is "Unknown gridder <name>"; no name is ever removed |
| GridderFactory.CreateRegistered | Code/Components/Synthesis/synthesis/current/gridding/VisGridderFactory.cc:69-95 | a name just registered is built by the creator registered for it, without loading anything |
| GridderFactory.CreateUnregistered | Code/Components/Synthesis/synthesis/current/gridding/VisGridderFactory.cc:69-93 | a name that is not registered is built exactly when its library is loadable and its entry point registers that name |
| GridderFactory.MakeSubset | Code/Components/Synthesis/synthesis/current/gridding/VisGridderFactory.cc:120-122 | the subset holds exactly the keys under the prefix, with the prefix removed, and their values |
| GridderFactory.Configure | Code/Components/Synthesis/synthesis/current/gridding/VisGridderFactory.cc:124-208 | the options succeed exactly when padding is asked only of a gridder with padding, pointing separation and PSF selection only of a table gridder, and snap-shot imaging comes with its w tolerance; per-plane weights are set on table gridders only; the creator and parameters are kept and the snap-shot adapter appears exactly when requested |
| GridderFactory.Make | Code/Components/Synthesis/synthesis/current/gridding/VisGridderFactory.cc:102-122 | the first call fills the registry with the predefined gridders; without a "gridder" key the call fails; a built gridder gets the parset entries under "gridder.<name>."; when the registry knows the named gridder the result is that gridder built and then configured, a configuration error included, and otherwise the unknown-gridder error |
| GridderFactory.FillRegistry | Code/Components/Synthesis/synthesis/current/gridding/VisGridderFactory.cc:103-113 | an empty registry is filled with the six predefined gridders WProject, WStack, AProjectWStack, AWProject, Box and SphFunc, all table gridders with padding; a non-empty one is left alone |
| GridderFactory.MakeKeepsFilledRegistry | Code/Components/Synthesis/synthesis/current/gridding/VisGridderFactory.cc:69-103 | a registry that is not empty and already knows the gridder is left as it was, and the gridder comes from its registered creator |
| GridderFactory.MakeFirstCallPredefined | Code/Components/Synthesis/synthesis/current/gridding/VisGridderFactory.cc:103-122 | on the first call a predefined gridder is built without loading any library |
| GridderFactory.OverSampleWeightOnlyWarns | Code/Components/Synthesis/synthesis/current/gridding/VisGridderFactory.cc:167-182 | the per-plane weight option is never an error; on a gridder that is not a table gridder it changes nothing |
| TableVisGridder.NewGridder | Code/Components/Synthesis/synthesis/trunk/gridding/TableVisGridder.cc:95-110 | a gridder is made exactly when oversampling, support and padding are all positive; they are checked in that order, each with its own message |
| TableVisGridder.NormaliseOffset | Code/Components/Synthesis/synthesis/trunk/gridding/TableVisGridder.cc:400-410 | the adjusted fraction is accepted exactly when the raw one lies in [-overSample, 2 overSample); it then lies in [0, overSample) and the position in oversampled units, cell times overSample minus fraction, is unchanged |
| TableVisGridder.PlaceOnAxis | Code/Components/Synthesis/synthesis/trunk/gridding/TableVisGridder.cc:398-426 | the sample's place on an axis is the normalised offset with the cell moved by half the grid, failing exactly when the normalisation does |
| TableVisGridder.NormaliseOffsetUnique | Code/Components/Synthesis/synthesis/trunk/gridding/TableVisGridder.cc:400-410 | the normalised offset is the only one with a fraction in range that stands for the same position |
| TableVisGridder.SameRemainder | Code/Components/Synthesis/synthesis/trunk/gridding/TableVisGridder.cc:400-410 | two (cell, fraction) pairs with fractions in [0, n) that stand for the same position are equal |
| TableVisGridder.DefaultConvIndexInRange | Code/Components/Synthesis/synthesis/trunk/gridding/TableVisGridder.cc:945-948 | with the default `cIndex` of 0, a normalised sample's convolution index lies in [0, overSample²) |
| TableVisGridder.PlaneIndices | Code/Components/Synthesis/synthesis/trunk/gridding/TableVisGridder.cc:467-483 | the grid and convolution indices are accepted exactly when each is non-negative and below its count |
| TableVisGridder.DefaultIndicesAccepted | Code/Components/Synthesis/synthesis/trunk/gridding/TableVisGridder.cc:467-483 | with the default indices a normalised sample passes both index checks once there is one grid and overSample² convolution functions |
| TableVisGridder.OnGridIffSupportInside | Code/Components/Synthesis/synthesis/trunk/gridding/TableVisGridder.cc:492-494 | the on-grid test passes exactly when every cell within the support along u and along v lies inside the grid, away from the first row and column |
| TableVisGridder.Count | Code/Components/Synthesis/synthesis/trunk/gridding/TableVisGridder.cc:433-555 | a used channel leaves the flagged-vector count alone; an unused one (a flagged polarisation, or not mapped to the image) changes neither sample count and adds a flagged vector only when gridding; a used sample whose support leaves the grid adds nothing; one inside adds nImagePols to the degridded count when degridding, and to the gridded count when gridding unless the pass is for the PSF and the sample is not the PSF data |
| TableVisGridder.Generic | Code/Components/Synthesis/synthesis/trunk/gridding/TableVisGridder.cc:296-331 | degridding into an empty model changes nothing; otherwise degridding with a PSF gridder, gridding before the sum of weights is set up, a support that is not positive and missing cell sizes are the errors, in that order; a pass that gets through counts one flagged vector per unused channel when gridding, none when degridding, and never both grids and degrids |
| TableVisGridder.CountAllEffect | Code/Components/Synthesis/synthesis/trunk/gridding/TableVisGridder.cc:433-555 | over a whole accessor, gridding adds one flagged vector per unused channel and degridding adds none; degridding never adds a gridded sample and gridding never a degridded one |
| TableVisGridder.CountAllAppend | Code/Components/Synthesis/synthesis/trunk/gridding/TableVisGridder.cc:296-555 | the counters accumulate across accessors: counting two batches one after the other is counting their concatenation |
| TableVisGridder.ToComplex | Code/Components/Synthesis/synthesis/trunk/gridding/TableVisGridder.cc:634-647 | the padded plane is padding times larger along each axis |
| TableVisGridder.ToComplexCopies | Code/Components/Synthesis/synthesis/trunk/gridding/TableVisGridder.cc:647-661 | the padded plane holds the input pixel (x, y) at (x + ((padding-1) nx)/2, y + ((padding-1) ny)/2) |
| TableVisGridder.Embed | Code/Components/Synthesis/synthesis/trunk/gridding/TableVisGridder.cc:645-661 | the embedded plane has the outer size and holds the input at the given offset |
| TableVisGridder.ToDouble | Code/Components/Synthesis/synthesis/trunk/gridding/TableVisGridder.cc:671-679 | the extracted plane is 1/padding of the input along each axis, rounded down |
| TableVisGridder.Centre | Code/Components/Synthesis/synthesis/trunk/gridding/TableVisGridder.cc:680-696 | each output pixel (x, y) is the input pixel at (x, y) shifted by half the size difference on each axis |
| TableVisGridder.PaddingRoundTrip | Code/Components/Synthesis/synthesis/trunk/gridding/TableVisGridder.cc:634-696 | padding a plane and extracting the centre again gives the plane back |
| TableVisGridder.PaddingRoom | Code/Components/Synthesis/synthesis/trunk/gridding/TableVisGridder.cc:645-646 | the padding offset leaves room for the input inside the padded plane |
| TableVisGridder.InitialiseSumOfWeights | Code/Components/Synthesis/synthesis/trunk/gridding/TableVisGridder.cc:771-776 | the sum of weights has one convolution plane, the polarisations and channels of the image (1 when the shape has no such axis), and is all zero |
| TableVisGridder.AddWeight | Code/Components/Synthesis/synthesis/trunk/gridding/TableVisGridder.cc:517-523 | gridding a polarisation adds one to the sum of weights at (cIndex, pol, image channel) and changes nothing else; an empty array or an index out of range is an error |
| NonzeroRanges.FlagOutliers | Code/Components/swc-utils/current/apps/findnonzeroranges.cc:63-74 | every entry of modulus above 2e6 becomes zero; every other entry and the shape are kept |
| NonzeroRanges.FlagOutliersIdempotent | Code/Components/swc-utils/current/apps/findnonzeroranges.cc:63-74 | no outlier survives clipping, so clipping twice is clipping once |
| NonzeroRanges.RowFlagged | Code/Components/swc-utils/current/apps/findnonzeroranges.cc:141-145 | a row is flagged exactly when some channel flag is set |
| NonzeroRanges.ScanChannel | Code/Components/swc-utils/current/apps/findnonzeroranges.cc:186-198 | one channel of the scan keeps the invariant: the closed ranges are maximal runs above 1e5 of the channels seen, and the open one starts right after a channel below the threshold |
| NonzeroRanges.FinishScan | Code/Components/swc-utils/current/apps/findnonzeroranges.cc:199-202 | a range still open at the end of the row closes at the last channel, leaving maximal runs that cover every channel above the threshold |
| NonzeroRanges.ExtractRanges | Code/Components/swc-utils/current/apps/findnonzeroranges.cc:182-202 | the ranges found are ascending, separated, maximal runs of channels of modulus above 1e5, and every such channel lies in one |
| NonzeroRanges.RangesExactlyAbove | Code/Components/swc-utils/current/apps/findnonzeroranges.cc:182-202 | a channel lies in one of the ranges exactly when its modulus is above 1e5 |
| NonzeroRanges.RangesChanged | Code/Components/swc-utils/current/apps/findnonzeroranges.cc:203-213 | the size test plus the element loop decide exactly whether the new ranges differ from the old |
| NonzeroRanges.FirstDifference | Code/Components/swc-utils/current/apps/findnonzeroranges.cc:207-212 | the `break` loop finds a difference exactly when some range from `rng` on differs |
| NonzeroRanges.MakeRecord | Code/Components/swc-utils/current/apps/findnonzeroranges.cc:219-223 | a line of chranges.dat carries the cycle, the cycles since the last change, and for every range its first and last channel and a width that is at least one and spans exactly the range |
| NonzeroRanges.ProcessRow | Code/Components/swc-utils/current/apps/findnonzeroranges.cc:140-227 | a flagged row counts as bad and an unflagged one as good; only an unflagged baseline 0-1 row updates the ranges, to maximal runs of its clipped visibilities; the change cycle moves and a line is written only when the ranges changed, and the line only when there is more than one range |
| NonzeroRanges.ProcessRows | Code/Components/swc-utils/current/apps/findnonzeroranges.cc:140-228 | every row of the cycle is counted once as good or bad, and lines already written are kept as a prefix |
| NonzeroRanges.FirstInconsistency | Code/Components/swc-utils/current/apps/findnonzeroranges.cc:135-138 | no message exactly when every row's antenna ids agree with the first cycle's baseline order |
| NonzeroRanges.Step | Code/Components/swc-utils/current/apps/findnonzeroranges.cc:106-247 | a changed channel count is an error with its message; a changed row count skips the cycle after counting it; fewer than one polarisation or two channels is an error; otherwise every row is counted, lines only accumulate, and a first cycle with no good row is forgotten so the next is taken as first |
| MsSplit.RowIsFiltered | Code/Components/CP/pipelinetasks/current/mssplit/MsSplitApp.cc:517-544 | without filters no row is dropped; with filters a row is dropped exactly when its time lies outside the window, or a scan, field or beam selection is given that the row misses (a beam matches on either feed) |
| MsSplit.NoFiltersKeepEverything | Code/Components/CP/pipelinetasks/current/mssplit/MsSplitApp.cc:517-529 | the freshly constructed filters (empty sets, the extreme double limits) select nothing, so no row is dropped |
| MsSplit.EitherFeedSelects | Code/Components/CP/pipelinetasks/current/mssplit/MsSplitApp.cc:537-541 | a row inside the time window is kept by the beam selection when either of its feeds is selected |
| MsSplit.KeptRows | Code/Components/CP/pipelinetasks/current/mssplit/MsSplitApp.cc:191-207 | the rows kept are exactly those the filter does not drop, in ascending order |
| MsSplit.GetRowsToKeep | Code/Components/CP/pipelinetasks/current/mssplit/MsSplitApp.cc:209-240 | an empty selection is an error; otherwise the runs cover exactly the kept rows in order, ascend without overlap, hold at most maxSimultaneousRows rows each (at least one), and a run ends only at a gap or at the cap |
| MsSplit.RowsCopied | Code/Components/CP/pipelinetasks/current/mssplit/MsSplitApp.cc:656-664 | the rows a list of runs copies is the total of their lengths |
| MsSplit.UnfilteredChunks | Code/Components/CP/pipelinetasks/current/mssplit/MsSplitApp.cc:652-664 | without filters the copy loop covers every row once, in order, in chunks of maxSimultaneousRows rows, only the last one shorter |
| MsSplit.ValidateSplitAsWritten | Code/Components/CP/pipelinetasks/current/mssplit/MsSplitApp.cc:864-883 | the split is accepted exactly when the width is positive and divides the 32-bit channel count, the first channel is at least 1 and the last at most the input's channel count |
| MsSplit.ValidateSplit | Code/Components/CP/pipelinetasks/current/mssplit/MsSplitApp.cc:864-883 | the checks with `endChan >= startChan` added: an accepted split has a positive channel count that equals the range, at least one output channel, and lies inside the input spectrum |
| MsSplit.MaxBucketSize | Code/Components/CP/pipelinetasks/current/mssplit/MsSplitApp.cc:905-906 | the largest bucket is the buffer share of one row of tiles, but never below 8192 |
| MsSplit.SplitBucketSize | Code/Components/CP/pipelinetasks/current/mssplit/MsSplitApp.cc:902-911 | the bucket size is lowered to the maximum and otherwise kept; a tile count of zero (a division by zero) is an error |
| MsSplit.TilesCoverChannels | Code/Components/CP/pipelinetasks/current/mssplit/MsSplitApp.cc:904 | for a non-empty spectrum the tile count is the least number of tiles covering the output channels |
| MsSplit.EmptyRangeDividesByZero | Code/Components/CP/pipelinetasks/current/mssplit/MsSplitApp.cc:864-911 | the channel range 1..0 passes the checks as written, yet its tile count wraps to 0 and the bucket-size step divides by zero; the corrected checks refuse it |
| MsSplit.ValidatedSplitSizes | Code/Components/CP/pipelinetasks/current/mssplit/MsSplitApp.cc:902-911 | after the corrected checks, bucket sizing succeeds for any positive tile width |
| MsSplit.Create | Code/Components/CP/pipelinetasks/current/mssplit/MsSplitApp.cc:97-147 | the bucket size is raised to 8192 and the tile shape to at least 1; the tile's row count lies between 1 and the table's rows for a non-empty table; a byte count that wraps to 0 is an error |
| MsSplit.TileRowsFillBucket | Code/Components/CP/pipelinetasks/current/mssplit/MsSplitApp.cc:143-147 | a tile's rows fit in a bucket unless one row alone exceeds it, and one more row would not fit unless the tile already spans the table |
| MsSplit.ChanOffset | Code/Components/CP/pipelinetasks/current/mssplit/MsSplitApp.cc:492-493 | output channel d starts d widths after the first selected input channel |
| MsSplit.SourceChannels | Code/Components/CP/pipelinetasks/current/mssplit/MsSplitApp.cc:485-503 | each output channel reads the width input channels from its offset |
| MsSplit.WindowsTileRange | Code/Components/CP/pipelinetasks/current/mssplit/MsSplitApp.cc:474-503 | the output channels together read every selected input channel exactly once, in order |
| MsSplit.CountZeroIffAllFlagged | Code/Components/CP/pipelinetasks/current/mssplit/MsSplitApp.cc:769-776 | no channel contributes exactly when every channel in the window is flagged |
| MsSplit.AverageWindow | Code/Components/CP/pipelinetasks/current/mssplit/MsSplitApp.cc:765-789 | one output value is the mean of the unflagged input values, and flagged exactly when all of them are flagged |
| MsSplit.Averaged | Code/Components/CP/pipelinetasks/current/mssplit/MsSplitApp.cc:765-789 | an averaged channel is flagged exactly when every input channel is; otherwise its value times the number of unflagged channels is their sum |
| MsSplit.AverageSpectrum | Code/Components/CP/pipelinetasks/current/mssplit/MsSplitApp.cc:761-793 | every output channel d averages input channels d·width .. d·width+width-1 and is flagged exactly when all of them are |
| MsSplit.WidthOneIsCopy | Code/Components/CP/pipelinetasks/current/mssplit/MsSplitApp.cc:725-733 | with width 1 averaging copies the value and the flag, as the direct copy does |
| CalSolutionTable.NewTable | Code/Base/accessors/current/tests/calibaccess/TableCalSolutionTest.h:98-100 | a fresh table has the given extent and no solutions |
| CalSolutionTable.NewSolutionID | Code/Base/accessors/current/tests/calibaccess/TableCalSolutionTest.h:100-117 | a new solution gets the id equal to the number of solutions before it, carries the given time, defines no term and leaves the earlier rows alone |
| CalSolutionTable.CreateSolutions | Code/Base/accessors/current/tests/calibaccess/TableCalSolutionTest.h:302-345 | a series of new solutions on an empty table hands out ids 0, 1, 2, … and each row carries its time |
| CalSolutionTable.MostRecentSolution | Code/Base/accessors/current/tests/calibaccess/TableCalSolutionTest.h:170-171 | the most recent solution is the last row, and there is none in an empty table |
| CalSolutionTable.SolutionID | Code/Base/accessors/current/tests/calibaccess/TableCalSolutionTest.h:172-174 | the solution for a time is the latest row at or before it; none when every row is later |
| CalSolutionTable.SolutionIDFindsRow | Code/Base/accessors/current/tests/calibaccess/TableCalSolutionTest.h:321-323 | with increasing times, a time between one solution's and the next one's finds that solution |
| CalSolutionTable.LatestDefining | Code/Base/accessors/current/tests/calibaccess/TableCalSolutionTest.h:285-299 | a term is read from the latest row at or before the solution that defines it, and is undefined when no such row exists |
| CalSolutionTable.Gain | Code/Base/accessors/current/tests/calibaccess/TableCalSolutionTest.h:124-143 | an antenna or beam out of range is refused; a gain is undefined exactly when no row at or before the solution defines gains; otherwise the value comes from the latest such row, and no row after it up to the solution defines gains |
| CalSolutionTable.Leakage | Code/Base/accessors/current/tests/calibaccess/TableCalSolutionTest.h:144-161 | the same for leakages: out of range refused, undefined exactly when no row up to the solution defines leakages, else read from the latest row that does |
| CalSolutionTable.Bandpass | Code/Base/accessors/current/tests/calibaccess/TableCalSolutionTest.h:179-199 | the same for bandpasses, with a channel at or beyond the channel count also refused; a value comes from the latest row up to the solution that defines bandpasses |
| CalSolutionTable.SetGain | Code/Base/accessors/current/tests/calibaccess/TableCalSolutionTest.h:103 | writing a gain in range changes only that solution's gains, makes them defined and stores the value at the index; out of range is refused |
| CalSolutionTable.SetLeakage | Code/Base/accessors/current/tests/calibaccess/TableCalSolutionTest.h:111 | writing a leakage in range changes only that solution's leakages and stores the value at the index |
| CalSolutionTable.SetBandpass | Code/Base/accessors/current/tests/calibaccess/TableCalSolutionTest.h:119 | writing a bandpass in range changes only that solution's bandpasses and stores the value at the index and channel |
| CalSolutionTable.SetJonesElement | Code/Base/accessors/current/tests/calibaccess/TableCalSolutionTest.h:353-357 | setting one product is refused exactly when the index is out of range |
| CalSolutionTable.GainWrittenIsRead | Code/Base/accessors/current/tests/calibaccess/TableCalSolutionTest.h:302-339 | a gain written at a solution reads back there and from every later solution up to the next row that writes gains |
| CalSolutionTable.UnsetGainIsDefault | Code/Base/accessors/current/tests/calibaccess/TableCalSolutionTest.h:135-141 | where a solution defines gains, an element never set reads as gain 1, marked invalid |
| CalSolutionTable.UnsetLeakageIsDefault | Code/Base/accessors/current/tests/calibaccess/TableCalSolutionTest.h:153-159 | where a solution defines leakages, an element never set reads as leakage 0, marked invalid |
| CalSolutionTable.JonesElementsFillTerms | Code/Base/accessors/current/tests/calibaccess/TableCalSolutionTest.h:340-387 | setting XX, YY, XY and YX of one index gives both gains and both leakages with the values set, all valid |
| CalSolutionTable.AdaptedBandpass | Code/Base/accessors/current/tests/calibaccess/TableCalSolutionTest.h:202-239 | through the channel adapter, bandpass channel c reads the underlying channel c + offset from the latest row up to the solution that defines bandpasses; a channel beyond the shifted range is refused |
| CalSolutionTable.AdapterChannels | Code/Base/accessors/current/tests/calibaccess/TableCalSolutionTest.h:262-276 | through the adapter exactly the channels below nChan - offset can be read |
| CalSolutionTable.ThreeSolutions | Code/Base/accessors/current/tests/calibaccess/TableCalSolutionTest.h:98-120 | the series written at times 0, 60 and 120 has three solutions over 6 antennas, 3 beams and 8 channels |
| CalSolutionTable.ThreeSolutionsRead | Code/Base/accessors/current/tests/calibaccess/TableCalSolutionTest.h:164-200 | for that series: the most recent solution is 2, times 0.5, 60.5 and 120.5 find solutions 0, 1 and 2, solution 2 reads the written gain, leakage and bandpass at their indices and defaults elsewhere, the out-of-range reads are refused, solution 0 reads its gain and has no leakage |
| CalSolutionTable.ThreeSolutionsAdapted | Code/Base/accessors/current/tests/calibaccess/TableCalSolutionTest.h:202-239 | through the adapter with offset 1, channel 0 of (1,1) reads the bandpass written on channel 1 and channel 7 is refused |
| Calibrator.Add | Code/Components/Synthesis/synthesis/current/parallel/CalibratorParallel.cc:326-327 | adding a parameter name already in the model is an error; otherwise the model gains exactly that name, with the value given and not fixed |
| Calibrator.ParseSolve | Code/Components/Synthesis/synthesis/current/parallel/CalibratorParallel.cc:126-154 | the solve string is accepted exactly when it mentions gains, leakages or bandpass, and bandpass only alone; the flags are the words that occur, with antenna-based gains and normalisation only together with gains |
| Calibrator.AcceptedFlagsConsistent | Code/Components/Synthesis/synthesis/current/parallel/CalibratorParallel.cc:127-150 | accepted flags never have antenna-based or normalised gains without gains, nor bandpass together with gains or leakages |
| Calibrator.DefaultSolvesGains | Code/Components/Synthesis/synthesis/current/parallel/CalibratorParallel.cc:126 | the default "gains" solves for per-beam gains alone, without normalisation |
| Calibrator.MatrixIsParallel | Code/Components/Synthesis/synthesis/current/parallel/CalibratorParallel.cc:158-163 | the LSQR parallel-matrix scheme is an error outside parallel mode or without a bandpass solution, and is on exactly when both keys ask for it |
| Calibrator.UpdateMax | Code/Components/Synthesis/synthesis/current/parallel/CalibratorParallel.cc:294-305 | each buffer maximum becomes the larger of itself and the new count |
| Calibrator.UpdatesCommute | Code/Components/Synthesis/synthesis/current/parallel/CalibratorParallel.cc:294-305 | the order of the updates does not matter and repeating one changes nothing |
| Calibrator.JonesSetMembers | Code/Components/Synthesis/synthesis/current/parallel/CalibratorParallel.cc:327-351 | the gain (or leakage) unknowns are exactly the two products for every antenna and beam in range |
| Calibrator.JonesSetSize | Code/Components/Synthesis/synthesis/current/parallel/CalibratorParallel.cc:327-351 | there are two unknowns per antenna and beam |
| Calibrator.BandpassSetMembers | Code/Components/Synthesis/synthesis/current/parallel/CalibratorParallel.cc:360-369 | the bandpass unknowns are exactly XX and YY for every antenna, beam and channel in range |
| Calibrator.BandpassSetSize | Code/Components/Synthesis/synthesis/current/parallel/CalibratorParallel.cc:360-369 | there are two bandpass unknowns per antenna, beam and channel |
| Calibrator.AddJones | Code/Components/Synthesis/synthesis/current/parallel/CalibratorParallel.cc:327-351 | the antenna/beam loop fails exactly when the model already has one of its names; otherwise it adds exactly those names with the given value and keeps every earlier parameter |
| Calibrator.AddBandpass | Code/Components/Synthesis/synthesis/current/parallel/CalibratorParallel.cc:360-369 | the antenna/beam/channel loop fails exactly when a bandpass name already exists; otherwise it adds exactly those names, each with value 1, and keeps the rest |
| Calibrator.InitKeysApart | Code/Components/Synthesis/synthesis/current/parallel/CalibratorParallel.cc:322-371 | gains, leakages and bandpass never share a name, and only the leakage names are leakages |
| Calibrator.InitModel | Code/Components/Synthesis/synthesis/current/parallel/CalibratorParallel.cc:322-371 | the reset model holds exactly the unknowns the flags ask for: gains 1, leakages 0, bandpass 1 |
| Calibrator.InitCounts | Code/Components/Synthesis/synthesis/current/parallel/CalibratorParallel.cc:322-371 | init creates two unknowns per antenna and beam for gains, two more for leakages, and two per antenna, beam and channel for the bandpass |
| Calibrator.InitBuffer | Code/Components/Synthesis/synthesis/current/parallel/CalibratorParallel.cc:338-370 | after init the antenna and beam maxima are raised to the counts when anything is solved, and the channel maximum to 1 for gains or leakages and to nChan for the bandpass |
| Calibrator.InitMaster | Code/Components/Synthesis/synthesis/current/parallel/CalibratorParallel.cc:313-372 | the master's init fails exactly for antenna-based gains with a beam count other than 1; otherwise the model holds the unknowns for the counts read (defaults 36, 1, 304, stored as `uInt`) with their initial values, and the buffer maxima are raised accordingly |
| Calibrator.InitWorker | Code/Components/Synthesis/synthesis/current/parallel/CalibratorParallel.cc:373-384 | without channels per worker the buffer maxima stay; with them they are raised to the antenna, beam and channel counts |
| Calibrator.WorkerChannels | Code/Components/Synthesis/synthesis/current/parallel/CalibratorParallel.cc:264-275 | a negative channel count, or a missing or negative chunk when the count is positive, is an error; otherwise the worker takes count channels from count·chunk (in `uInt`), or from 0 when the count is 0 |
| Calibrator.ChunksDoNotOverlap | Code/Components/Synthesis/synthesis/current/parallel/CalibratorParallel.cc:264-275 | workers with different chunks handle disjoint channel ranges while the channel numbers fit in a `uInt` |
| Calibrator.CopyKeysMeaning | Code/Components/Synthesis/synthesis/current/parallel/CalibratorParallel.cc:389-405 | with distinct target names every present key arrives under its target name with its value, and nothing else arrives |
| Calibrator.LsqrParams | Code/Components/Synthesis/synthesis/current/parallel/CalibratorParallel.cc:389-405 | the solver parameters are exactly the defined "solver.LSQR.*" keys under their solver names |
| Calibrator.SetChannelOffset | Code/Components/Synthesis/synthesis/current/parallel/CalibratorParallel.cc:584-592 | "chan_offset" is in the model afterwards with the start channel as value and fixed; every other parameter is unchanged |
| Calibrator.SetChannelOffsetIdempotent | Code/Components/Synthesis/synthesis/current/parallel/CalibratorParallel.cc:584-592 | setting the offset again with the same start channel changes nothing |
| Calibrator.SetNextChunkFlag | Code/Components/Synthesis/synthesis/current/parallel/CalibratorParallel.cc:852-869 | only workers may set the flag; generic normal equations get 1 for true and -1 for false and keep their other metadata; others are left alone |
| Calibrator.GetNextChunkFlag | Code/Components/Synthesis/synthesis/current/parallel/CalibratorParallel.cc:877-891 | the flag reads true exactly when generic normal equations carry a positive value for it |
| Calibrator.RemoveNextChunkFlag | Code/Components/Synthesis/synthesis/current/parallel/CalibratorParallel.cc:894-906 | removal drops the flag and keeps every other metadata value |
| Calibrator.NextChunkFlagRoundTrip | Code/Components/Synthesis/synthesis/current/parallel/CalibratorParallel.cc:852-891 | on generic normal equations the flag a worker sets is the flag read back |
| Calibrator.RemovedFlagReadsFalse | Code/Components/Synthesis/synthesis/current/parallel/CalibratorParallel.cc:877-906 | after removal the flag reads false, and setting it again restores the round trip |
| Calibrator.SolutionTime | Code/Components/Synthesis/synthesis/current/parallel/CalibratorParallel.cc:825-841 | without normal equations it is an error; the time is the "min_time" metadata when present, else 0 |
| Calibrator.FlagLeavesSolutionTime | Code/Components/Synthesis/synthesis/current/parallel/CalibratorParallel.cc:825-906 | setting or removing the next-chunk flag does not change the solution time |
| CasdaPolarisation.Position | Code/Components/Analysis/analysis/current/catalogues/CasdaPolarisationEntry.cc:155-249 | every column type has its place in the branch chain, and that place holds it |
| CasdaPolarisation.FromComponent | Code/Components/Analysis/analysis/current/catalogues/CasdaPolarisationEntry.cc:63-130 | every quantity the constructor does not set from the component or to a constant comes from the RM-synthesis and noise results |
| CasdaPolarisation.FromComponentCopies | Code/Components/Analysis/analysis/current/catalogues/CasdaPolarisationEntry.cc:63-94 | the constructor copies the component's position, name, id, integrated flux and spectral indices |
| CasdaPolarisation.FromComponentDefaults | Code/Components/Analysis/analysis/current/catalogues/CasdaPolarisationEntry.cc:95-130 | it zeroes the higher spectral terms, both complexities and the spare flags, and takes every other quantity from the RM-synthesis results |
| CasdaPolarisation.PositionFromComponent | Code/Components/Analysis/analysis/current/catalogues/CasdaPolarisationEntry.cc:133-141 | `ra()` and `dec()` give back the component's position |
| CasdaPolarisation.LookupFrom | Code/Components/Analysis/analysis/current/catalogues/CasdaPolarisationEntry.cc:158-247 | the branch chain finds the first column type with the given name from a position on, or reports that none has it |
| CasdaPolarisation.Lookup | Code/Components/Analysis/analysis/current/catalogues/CasdaPolarisationEntry.cc:158-247 | a type string names a column type exactly when some type is spelled that way |
| CasdaPolarisation.PrintTableEntry | Code/Components/Analysis/analysis/current/catalogues/CasdaPolarisationEntry.cc:155-249 | a known column type prints the member belonging to it; an unknown one is an error |
| CasdaPolarisation.PrintCells | Code/Components/Analysis/analysis/current/catalogues/CasdaPolarisationEntry.cc:147-149 | a row's cells print when every column is known, one cell per column, each as `printTableEntry` gives it |
| CasdaPolarisation.PrintTableRow | Code/Components/Analysis/analysis/current/catalogues/CasdaPolarisationEntry.cc:144-152 | a row prints every column in order followed by one end of line, and fails exactly when some column type is unknown |
| CasdaPolarisation.CheckColAsWritten | Code/Components/Analysis/analysis/current/catalogues/CasdaPolarisationEntry.cc:251-345 | checking a column as written fails exactly for an unknown type |
| CasdaPolarisation.CheckCol | Code/Components/Analysis/analysis/current/catalogues/CasdaPolarisationEntry.cc:251-345 | the corrected check fails exactly for an unknown type |
| CasdaPolarisation.CheckSpec | Code/Components/Analysis/analysis/current/catalogues/CasdaPolarisationEntry.cc:347-352 | checking a specification fails exactly when some column is unknown, and otherwise checks every column in order |
| CasdaPolarisation.ColumnOfPrintSlot | Code/Components/Analysis/analysis/current/catalogues/CasdaPolarisationEntry.cc:155-249 | the member a column type prints determines the type |
| CasdaPolarisation.PrintSlotInjective | Code/Components/Analysis/analysis/current/catalogues/CasdaPolarisationEntry.cc:155-249 | no two column types print the same member |
| CasdaPolarisation.CheckMatchesPrint | Code/Components/Analysis/analysis/current/catalogues/CasdaPolarisationEntry.cc:155-345 | corrected, checking a column looks at exactly the member printing it shows |
| CasdaPolarisation.CheckAsWrittenDiffersOnlyAtVFlux | Code/Components/Analysis/analysis/current/catalogues/CasdaPolarisationEntry.cc:268-269 | as written, VFLUX is checked against the I flux while it prints the V flux; every other column checks what it prints |
| CasdaPolarisation.CheckSpecMatchesPrintTableRow | Code/Components/Analysis/analysis/current/catalogues/CasdaPolarisationEntry.cc:347-352 | a specification passes the corrected check exactly when it can be printed, and each checked value is the value printed in that column |
| CasdaPolarisation.VFluxCheckedAgainstIFlux | Code/Components/Analysis/analysis/current/catalogues/CasdaPolarisationEntry.cc:268-269 | when the V and I fluxes differ, checking VFLUX as written looks at a value other than the one it prints |
| SchemaGenerate.MappedTypesStartPlainly | Code/Components/Services/skymodel/current/schema_generation/generate.py:67-78 | every C++ type in the type map is non-empty and starts with neither '#' nor '/' |
| SchemaGenerate.NewField | Code/Components/Services/skymodel/current/schema_generation/generate.py:81-89 | a row converts exactly when its stripped SQL type is a key of the type map (else a KeyError); the field holds the stripped name, description and units, the mapped type, and the three flags unchanged |
| SchemaGenerate.Lines | Code/Components/Services/skymodel/current/schema_generation/generate.py:94-121 | the emitted lines are the comment, the index pragma only when indexed, one nullability pragma, the declaration and a final newline element: five lines when indexed, four otherwise |
| SchemaGenerate.GetFields | Code/Components/Services/skymodel/current/schema_generation/generate.py:131-139 | one field per row in row order, succeeding exactly when every row's type is mapped |
| SchemaGenerate.IndexPragmaIffIndexed | Code/Components/Services/skymodel/current/schema_generation/generate.py:102-103 | the index pragma is among the lines exactly when the field is indexed |
| SchemaGenerate.ExactlyOneNullability | Code/Components/Services/skymodel/current/schema_generation/generate.py:105-108 | "#pragma db null" appears exactly when the field is nullable and "#pragma db not_null" exactly when it is not |
| SchemaGenerate.DeclarationOfCleanRow | Code/Components/Services/skymodel/current/schema_generation/generate.py:81-113 | a row with a mapped type and no surrounding white space is declared as the mapped type, a space, the name and ';' |
| SchemaGenerate.JoinSnoc | Code/Components/Services/skymodel/current/schema_generation/generate.py:121 | joining one more part appends the separator and that part |
| SchemaGenerate.CommentLine | Code/Components/Services/skymodel/current/schema_generation/generate.py:123-128 | the comment line opens with "/// @brief " and the description, closes with the units in parentheses when there are units, and holds nothing else; it holds a line break exactly when the description or the units do |
| SchemaGenerate.CommentIsFirstLine | Code/Components/Services/skymodel/current/schema_generation/generate.py:94-128 | when neither the description nor the units hold a line break, the printed field's first line is its comment line |
| SchemaGenerate.Render | Code/Components/Services/skymodel/current/schema_generation/generate.py:94-121 | a rendered field starts with its comment line and a newline and ends with its declaration and two newlines, so fields written one after the other are separated by a blank line |
| SchemaGenerate.JoinedLinesStart | Code/Components/Services/skymodel/current/schema_generation/generate.py:94-121 | the joined lines start with the comment line and a newline |
| SchemaGenerate.JoinedLinesEnd | Code/Components/Services/skymodel/current/schema_generation/generate.py:111-121 | the joined lines end with the declaration and two newlines |
| ChannelMerge.CountIsPositions | Code/Components/Services/ingest/current/ingestpipeline/chanmergetask/ChannelMergeTask.cc:515-517 | summing the activity flags counts the ranks: the number of entries equal to b is the number of positions holding b |
| ChannelMerge.ConfigError | Code/Components/Services/ingest/current/ingestpipeline/chanmergetask/ChannelMergeTask.cc:524-532 | no error exactly when some rank has data, more than one chunk is merged per group, and the inputs split into whole groups; the first failed check names the error |
| ChannelMerge.ConfigureRanks | Code/Components/Services/ingest/current/ingestpipeline/chanmergetask/ChannelMergeTask.cc:497-596 | the configuration is accepted exactly when it is valid; an active rank's sequence number is the count of active ranks before it and its group that number divided by the merge size; without spare ranks only active ranks are in use; with them an active rank's group gets an output rank exactly when its number is below the spare count, and the n-th inactive rank is activated into group n exactly when that group exists; an unused rank gets colour nprocs |
| ChannelMerge.SeqNumbersEnumerateInputs | Code/Components/Services/ingest/current/ingestpipeline/chanmergetask/ChannelMergeTask.cc:516-517 | active ranks are numbered from 0 below the number of inputs, in rank order |
| ChannelMerge.SeqNumbersDistinct | Code/Components/Services/ingest/current/ingestpipeline/chanmergetask/ChannelMergeTask.cc:516-517 | no two active ranks share a sequence number |
| ChannelMerge.GroupsAreFull | Code/Components/Services/ingest/current/ingestpipeline/chanmergetask/ChannelMergeTask.cc:516-549 | every slot of every merge group is taken by an active rank in that group |
| ChannelMerge.ActivatedRankPerGroup | Code/Components/Services/ingest/current/ingestpipeline/chanmergetask/ChannelMergeTask.cc:549-566 | with spare ranks, an active rank's group is told it has an activated output rank exactly when some inactive rank is activated into that group |
| ChannelMerge.ActivatedRanksDistinct | Code/Components/Services/ingest/current/ingestpipeline/chanmergetask/ChannelMergeTask.cc:558-566 | no two inactive ranks are activated into the same group |
| ChannelMerge.UnusedColourIsFree | Code/Components/Services/ingest/current/ingestpipeline/chanmergetask/ChannelMergeTask.cc:548-586 | the colour of an unused rank is the colour of no rank in use |
| ChannelMerge.LatestTime | Code/Components/Services/ingest/current/ingestpipeline/chanmergetask/ChannelMergeTask.cc:153-168 | the first loop finds the latest time of the merged ranks, and reports a change exactly when a later rank is newer than the first |
| ChannelMerge.FlagOlder | Code/Components/Services/ingest/current/ingestpipeline/chanmergetask/ChannelMergeTask.cc:175-184 | the second loop marks a chunk invalid exactly when its time is not the latest, counting the valid ones |
| ChannelMerge.AlignTimesAsWritten | Code/Components/Services/ingest/current/ingestpipeline/chanmergetask/ChannelMergeTask.cc:149-192 | the latest time is the maximum; flags are produced exactly when a later rank is newer than the first, and then mark exactly the chunks not at the latest time, keeping some but not all; when no later rank is newer every chunk is kept |
| ChannelMerge.OlderChunkKept | Code/Components/Services/ingest/current/ingestpipeline/chanmergetask/ChannelMergeTask.cc:153-168 | with times 10 then 9 nothing is invalidated, so the chunk stamped 9 is merged with the one stamped 10 |
| ChannelMerge.AlignTimes | Code/Components/Services/ingest/current/ingestpipeline/chanmergetask/ChannelMergeTask.cc:149-192 | corrected: every chunk older than the latest time is invalid whichever rank holds it; no flags exactly when all times agree |
| ChannelMerge.OlderMeaning | Code/Components/Services/ingest/current/ingestpipeline/chanmergetask/ChannelMergeTask.cc:149-192 | against the latest time no chunk is older exactly when all times agree, and otherwise some but not all chunks are |
| ChannelMerge.AlignTimesAgreesWhenInvalidating | Code/Components/Services/ingest/current/ingestpipeline/chanmergetask/ChannelMergeTask.cc:160-184 | wherever the as-written rule invalidates anything, the corrected rule marks the same chunks |
| ChannelMerge.FillCube | Code/Components/Services/ingest/current/ingestpipeline/chanmergetask/ChannelMergeTask.cc:270-298 | the merged cube has ranksToMerge slices; slice r is gathered buffer r + offset, or, when r is invalid, the fill value (visibility 0, flag true) that the cube was set to before |
| ChannelMerge.MergeFrequencies | Code/Components/Services/ingest/current/ingestpipeline/chanmergetask/ChannelMergeTask.cc:198-210 | frequencies are merged from every rank, whether its data are valid or not |
| ChannelMerge.FirstMismatch | Code/Components/Services/ingest/current/ingestpipeline/chanmergetask/ChannelMergeTask.cc:376-385 | the rank loop passes exactly when every rank from the first checked one has this rank's dimensions |
| ChannelMerge.CheckChunkForConsistency | Code/Components/Services/ingest/current/ingestpipeline/chanmergetask/ChannelMergeTask.cc:344-391 | an idle stream where one is not expected, or a missing one where it is, is an error; the rank with the activated output creates a chunk with rank 1's dimensions and ranksToMerge times its channels; every other rank passes exactly when all ranks agree on the dimensions |
| DuchampParallel.LongAxesCounts | Code/Components/Analysis/analysis/current/parallelanalysis/DuchampParallel.cc:106-118 | the count of axes longer than 1 is the size of the set of such axes, so `is2D` holds exactly when at most two axes are longer than 1 |
| DuchampParallel.DegenerateAxesIgnored | Code/Components/Analysis/analysis/current/parallelanalysis/DuchampParallel.cc:106-118 | appending axes of length 1 or less leaves the long-axis count unchanged |
| DuchampParallel.WorkerSearchCriteria | Code/Components/Analysis/analysis/current/parallelanalysis/DuchampParallel.cc:440-482 | in a parallel run every minimum (pixels, channels, voxels) is 1 during a worker's search; afterwards the saved criteria are back; a serial search uses them unchanged |
| DuchampParallel.FilterMembers | Code/Components/Analysis/analysis/current/parallelanalysis/DuchampParallel.cc:486-491 | a source is kept by a filter exactly when it is in the list and passes the test |
| DuchampParallel.EdgePartition | Code/Components/Analysis/analysis/current/parallelanalysis/DuchampParallel.cc:968-971 | the edge and non-edge lists together hold every source exactly once (as multisets) |
| DuchampParallel.WorkerList | Code/Components/Analysis/analysis/current/parallelanalysis/DuchampParallel.cc:484-495 | the worker's final list is the finalised non-edge objects followed by the edge objects in their original order |
| DuchampParallel.InsertUpper | Code/Components/Analysis/analysis/current/parallelanalysis/DuchampParallel.cc:1094-1099 | inserting into the multimap adds exactly the new entry and grows it by one |
| DuchampParallel.InsertUpperSorted | Code/Components/Analysis/analysis/current/parallelanalysis/DuchampParallel.cc:1094-1099 | an entry inserted after all earlier positions keeps the multimap ordered by key and, among equal keys, by position |
| DuchampParallel.MultimapPositions | Code/Components/Analysis/analysis/current/parallelanalysis/DuchampParallel.cc:1094-1099 | the multimap holds each pair (key of source i, i) exactly once |
| DuchampParallel.MultimapSorted | Code/Components/Analysis/analysis/current/parallelanalysis/DuchampParallel.cc:1094-1104 | the multimap is ordered by key and by position among equal keys, and every entry's key is the key of the source at its position |
| DuchampParallel.SortByKeyCorrect | Code/Components/Analysis/analysis/current/parallelanalysis/DuchampParallel.cc:1094-1108 | the list read back from the multimap is in non-decreasing key order (x centre in 2-D, velocity otherwise) and is a permutation of the input that keeps sources with equal keys in their original order |
| DuchampParallel.Number | Code/Components/Analysis/analysis/current/parallelanalysis/DuchampParallel.cc:1112-1120 | after sorting, the k-th source gets ID k+1 and its flag text gains "E" when it lies on an edge, "-" otherwise; everything else is kept |
| DuchampParallel.Cleanup | Code/Components/Analysis/analysis/current/parallelanalysis/DuchampParallel.cc:965-1120 | the master's final list holds the processed edge sources plus the non-edge sources that have enough channels and at least the minimum pixels, numbered from 1 |
| DuchampParallel.CleanupIsStableSort | Code/Components/Analysis/analysis/current/parallelanalysis/DuchampParallel.cc:965-1120 | the final list is the processed edge sources followed by the kept non-edge ones, put in non-decreasing key order by a permutation that keeps equal keys in their original order, each source keeping its size, position and payload and getting ID k + 1 at place k |
| DuchampParallel.NumberedStable | Code/Components/Analysis/analysis/current/parallelanalysis/DuchampParallel.cc:1094-1120 | numbering the sources of a stable sort keeps it a stable sort of the same list |
| DuchampParallel.CleanupSortedByKey | Code/Components/Analysis/analysis/current/parallelanalysis/DuchampParallel.cc:1094-1120 | the final list is in key order |
| DuchampParallel.FilterTwice | Code/Components/Analysis/analysis/current/parallelanalysis/DuchampParallel.cc:1082-1089 | keeping the non-edge sources and then the big enough ones is one filter by a test that asks both |
| DuchampParallel.WorkerFor | Code/Components/Analysis/analysis/current/parallelanalysis/DuchampParallel.cc:1141-1142 | source i goes to a worker below the number of workers (nodes minus the master) |
| DuchampParallel.RoundRobinBalanced | Code/Components/Analysis/analysis/current/parallelanalysis/DuchampParallel.cc:1141-1142 | of n sources, worker w of m gets n / m, one more when w < n mod m |
| DuchampParallel.CombinedMean | Code/Components/Analysis/analysis/current/parallelanalysis/DuchampParallel.cc:1790-1812 | with a positive total size the combined mean times that size is the size-weighted sum of the workers' means; otherwise it is that sum unchanged |
| DuchampParallel.EmptyWorkersMeanZero | Code/Components/Analysis/analysis/current/parallelanalysis/DuchampParallel.cc:1790-1812 | with no negative sizes and a total size of 0 the combined mean is 0 |
| DuchampParallel.EqualMeansCombine | Code/Components/Analysis/analysis/current/parallelanalysis/DuchampParallel.cc:1776-1812 | workers that all report the same mean, with a positive total size, combine to that mean |
| PolConverter.CodeInjective | Code/Base/scimath/current/tests/utils/PolConverterTest.h:296-324 | distinct Stokes types have distinct enumeration values |
| PolConverter.EnumOrder | Code/Base/scimath/current/tests/utils/PolConverterTest.h:296-324 | the members of each polarisation frame are consecutive in the enumeration, in frame order, with the mixed products RX..YL following one another |
| PolConverter.ToStrings | Code/Base/scimath/current/tests/utils/PolConverterTest.h:337-342 | `toString` gives one upper-case name per element, in order |
| PolConverter.NormaliseAppend | Code/Base/scimath/current/tests/utils/PolConverterTest.h:326-331 | normalising text in two parts normalises each part |
| PolConverter.NormaliseIdempotent | Code/Base/scimath/current/tests/utils/PolConverterTest.h:326-331 | normalising twice changes nothing more |
| PolConverter.SeparatorsAndCaseIgnored | Code/Base/scimath/current/tests/utils/PolConverterTest.h:326-331 | text parses as its normal form, without commas, spaces or lower case, does |
| PolConverter.TokensOfJoined | Code/Base/scimath/current/tests/utils/PolConverterTest.h:326-342 | names of any frame run together split back into that frame |
| PolConverter.FromStringOfNames | Code/Base/scimath/current/tests/utils/PolConverterTest.h:326-342 | `fromString` inverts `toString`: the joined names of any frame parse back to it |
| PolConverter.FromString | Code/Base/scimath/current/tests/utils/PolConverterTest.h:326-342 | a parse gives a frame whose names, run together, are the text with separators dropped and case raised, and fails exactly when no frame's names give that text |
| PolConverter.TokensSound | Code/Base/scimath/current/tests/utils/PolConverterTest.h:326-342 | whatever the split finds names the text back |
| PolConverter.ExampleFrame | Code/Base/scimath/current/tests/utils/PolConverterTest.h:331-336 | "xy i q RR" is the frame XY, I, Q, RR |
| PolConverter.ExampleNames | Code/Base/scimath/current/tests/utils/PolConverterTest.h:337-342 | that frame is named "XY", "I", "Q", "RR" |
| PolConverter.ExampleCommaLinear | Code/Base/scimath/current/tests/utils/PolConverterTest.h:327-328 | "xx,yy,xy,yx" is the frame XX, YY, XY, YX |
| PolConverter.ExampleRunLinear | Code/Base/scimath/current/tests/utils/PolConverterTest.h:327-328 | "xxyyxyyx" is the same frame |
| PolConverter.ExampleCommaMixed | Code/Base/scimath/current/tests/utils/PolConverterTest.h:329-330 | "xyi,qu" is the frame XY, I, Q, U |
| PolConverter.ExampleSpacedMixed | Code/Base/scimath/current/tests/utils/PolConverterTest.h:329-330 | "xy i q u" is the same frame |
| PolConverter.GetIndex | Code/Base/scimath/current/tests/utils/PolConverterTest.h:375-390 | a product has an index exactly when it belongs to the Stokes, linear or circular frame, and that index is below 4 |
| PolConverter.CanonicOrder | Code/Base/scimath/current/tests/utils/PolConverterTest.h:375-390 | each canonical frame has four elements, passes its own frame test, and its k-th element has index k |
| PolConverter.IndexSelectsProduct | Code/Base/scimath/current/tests/utils/PolConverterTest.h:375-390 | the canonical frame's element at a product's index is that product |
| PolConverter.FirstUnavailable | Code/Base/scimath/current/tests/utils/PolConverterTest.h:102-118 | no product is reported exactly when every output is available from the inputs; a reported product is an output that is not |
| PolConverter.MakeConverter | Code/Base/scimath/current/tests/utils/PolConverterTest.h:102-133 | a converter has the input and output frames' lengths as its dimensions; with the check on, construction fails exactly when some output cannot be made from the inputs, naming such an output |
| PolConverter.StokesIQToLinear | Code/Base/scimath/current/tests/utils/PolConverterTest.h:102-118 | I and Q cannot make XY, so the checked construction fails there; unchecked it builds a 2-by-4 converter |
| PolConverter.ExampleConverters | Code/Base/scimath/current/tests/utils/PolConverterTest.h:58-146 | a linear frame builds I, Q; I alone builds XX, YY when missing outputs are allowed; XX, YY build I |
| PolConverter.StokesFeedsItsProducts | Code/Base/scimath/current/tests/utils/PolConverterTest.h:345-368 | each Stokes parameter feeds exactly its products: XX and YY for I and Q, XY and YX for U and V in a linear frame; RR and LL for I and V, RL and LR for Q and U in a circular frame; itself in a Stokes frame |
| PolConverter.StokesIFeedsParallelHands | Code/Base/scimath/current/tests/utils/PolConverterTest.h:363-368 | I feeds exactly XX and YY of the linear frame, not XY or YX |
| PolConverter.CanonicFramesConvert | Code/Base/scimath/current/tests/utils/PolConverterTest.h:345-361 | a complete canonical frame converts to any canonical frame with no output missing |

## Left out

- MPI, Ice, IceStorm and casacore calls are not modelled. Whatever such a call gathers or returns (the activity flags, times, worker means, Ice outcomes, loaded libraries) is a parameter of the model.
- Floating point is not modelled. Visibilities, fluxes and RM-synthesis results are opaque values or `real`. NVSS numeric columns keep the text `atof` would read. VOTable cells keep their text, since `lexical_cast` is not modelled.
- Sleeping, logging, printing to standard error and the monitoring counters have no effect on the modelled decisions and are left out.
- PolConverter.MakeConverter: the conversion matrices and the noise propagation are floating point and left out. An output counts as available when it is an input or when every Stokes parameter it is made of is determined by the inputs. This follows the standard Stokes relations the unit test relies on; the converter's implementation is not part of this model.
- PolConverter.GetIndex: mixed products (RX to YL) have no index in the model. The unit test asks only about the three canonical frames.
- PlaneIter.Tag: defined for shapes of four or more axes, with polarisation on axis 2 and channel on axis 3, which is the case the unit test pins.
- PlaneIter: every operation requires at least two axes, because a plane spans the first two; the iterator's own check of this is not part of this model.
- CalSolutionTable: a table lives only in memory. Writing it to disk and reopening it are one value kept across calls, so persistence itself is left out. `solutionID` for a time before every solution is an error; the unit test does not pin this case.
- Calibrator.InitModel: a parameter name is a `Key` record of antenna, beam, product and channel. The text that `CalParamNameHelper` builds from these is not part of this model; the model uses only that different indices give different names.
- Calibrator: the solvers, the measurement equations and the numbers in the normal equations are left out.
- Calibrator.InitModel: updatePreAvgBufferEstimates is given one channel when the bandpass is not solved for. The header that declares this default is not part of this model.
- Calibrator: a missing "chunk" key and similar failed parset reads are errors with a model-chosen message. The parset library's own wording is not part of this model.
- GridderFactory: the six predefined gridder names and their classes are taken to be WProject, WStack, AProjectWStack, AWProject, Box and SphFunc, each a table gridder with padding. Their `gridderName()` declarations are not part of this model.
- GridderFactory.Configure: a missing w tolerance is an error with a model-chosen message. The parset library's own wording is not part of this model.
- TableVisGridder.Count: samples arrive with their rounded cell and oversampled offset. The floating-point scaling and rounding of (u, v) and the phase rotation are left out.
- IngestServer.InitializeServices: this is the corrected set-up, which reads the FCM proxy successfully (see Findings). The observation service's construction and the internals of the state-change monitor are left out. The concurrent creation race appears only as the `createdMeanwhile` outcome.
- IceServer: the FCM lookup and adapter activation are outcomes given to the model.
- IceServer.GetConfig: `FromFile` carries the `--config=` value as written. The `os.path.expandvars`/`os.path.expanduser` expansion (server.py:99), the opening and parsing of the file and the IOError that opening can raise (server.py:100) are not modelled here; SetupServices takes the read's outcome, success or error, as its `load` input.
- IceServer.SetupServices: the configuration read, the FCM proxy check and its wait (server.py:105-113), `initialize_services`, each `_adapter.add` and both activations are inputs to the model (their outcomes or attempts), not computed; a step still waiting when its given attempts run out ends the run as `Hangs`.
- ChannelMerge.AlignTimes: epochs are compared exactly. `nearAbs` and its floating-point tolerance are not modelled.
- ChannelMerge: `checkRanksToMerge` and the warning about non-contiguous frequencies are left out. They log or check data that the merge does not change.
- MsSplit.AverageSpectrum: the values are averaged as reals over the unflagged channels. Complex data and the averaging of sigma are left out, as floating point.
- MsSplit: copying columns and tables is I/O and left out. Only which rows are copied and in which runs is modelled.
- ImgStat.InnerQuarter: error messages are the fixed prefixes. The corner and shape values that the source appends to the messages are left out.
- VOTableParser: an `ASKAPASSERT` failure (row out of range, unexpected unit or datatype) is an `Err` rather than an abort.
- ExpandPattern.Expand: a bound beyond `int` fails with a model-chosen message. `utility::fromString` is not part of this model. A range ending at 2147483647 makes the C++ loop counter overflow; the model lists the names up to that bound instead.
- MsList.PassFlaggedLong: a value whose `atoi` leaves `int` is undefined behaviour in C; the model reports it as an error with a model-chosen message instead of guessing the library's result.
- MsList.PassFlaggedBool: likewise, a value whose `atoi` leaves `int` is an error in the model.
- ContinuumNVSS.Define: the final `checkShape()` call of the base class is not modelled. It adjusts the floating-point axes and angle, and the component base class is not part of this model.
- TableVisGridder.ToComplex: padding zeroed. The model fills the border with 0, as freshly allocated complex storage is; an output array that already has the padded shape keeps its old border in the source, since `resize` then does nothing.
- ExpandPattern: the mismatch between the first brackets and the last range group is proved for any pattern with two groups (TwoGroupsMixFirstBracketsWithLastRange). No concrete instance such as "a[1..2]b[5..6]c" is worked out separately.
- DuchampParallel.CombinedMean: the mean is 0 for a total size of 0 only when no worker reports a negative size (EmptyWorkersMeanZero). Sizes are `int32` values in the source, and the model keeps them as integers.
- DuchampParallel.Cleanup: merging and parameter calculation of edge sources, `hasEnoughChannels`, `finaliseList` and `setAtEdge` are parameters of the model.
- DuchampParallel.Cleanup: sort keys are compared as exact reals. The source's multimap key is `float` (DuchampParallel.cc:1096), so the double x centre or velocity is narrowed first and two distinct keys can become equal; such sources then keep their list order, which the model does not reproduce.
- TableVisGridder.Generic: the per-sample checks inside the loop are not sequenced into Generic. These are the fractional-offset checks (TableVisGridder.cc:408-410 and 423-425), modelled by NormaliseOffset and PlaceOnAxis, and the grid and convolution index checks (467-483), modelled by PlaneIndices. The frequency sanity check on channel 0 is floating point and left out. Generic counts samples that already carry a normalised cell.
- Error texts: several `ASKAPASSERT` and `ASKAPCHECK` messages are model-chosen where the source streams values into them or states only the failed condition. These are NonzeroRanges' NoPolarisation and TooFewChannels, VOTableParser's "unexpected unit or datatype for ..." and "row_index out of range", Calibrator's NothingToSolve, and the messages of ChannelMerge.FirstMismatch. The model pins which error occurs and in which order, not its exact wording.
- ContinuumNVSS, SchemaGenerate and CatalogueElement receive their inputs as text already read. File and spreadsheet reading are left out.

## Findings

| source | as written | input that shows it | evidently intended | confidence | as-written member | corrected member |
|---|---|---|---|---|---|---|
| Code/Components/Analysis/analysis/current/catalogues/CasdaPolarisationEntry.cc:268-269 | `checkCol` checks the column of type VFLUX against the median I flux | any entry whose median V flux differs from its median I flux: VFLUX prints the V flux but is checked against the I flux | VFLUX is checked against the median V flux that `printTableEntry` prints | not executed | CasdaPolarisation.VFluxCheckedAgainstIFlux | CasdaPolarisation.CheckMatchesPrint |
| Code/Components/Services/ingest/current/ingestpipeline/chanmergetask/ChannelMergeTask.cc:153-168 | invalidation starts only when a later rank's time exceeds the running maximum | rank times [10, 9]: 10 stays the maximum, so nothing is invalidated and the chunk at time 9 is merged | every chunk older than the latest time is dropped | not executed | ChannelMerge.OlderChunkKept | ChannelMerge.AlignTimesAgreesWhenInvalidating |
| Code/Components/CP/common/current/cpcommon/TosMetadata.cc:112-117 | `checkAntennaId` tests `id + 1 > nAntenna` in 32-bit unsigned arithmetic | id 0xFFFFFFFF: id + 1 wraps to 0, so the check passes for any table, even an empty one | an id passes only when it is below the number of antennas | not executed | TosMetadata.MaxIdPassesCheck | TosMetadata.GetAntenna |
| Code/Components/CP/pipelinetasks/current/mssplit/MsSplitApp.cc:864-911 | `split` does not check that endChan >= startChan | startChan 1, endChan 0, width 1: every check passes, nChanOut is 0, nTilesPerRow wraps to 0 and the bucket-size step divides by it | a range with endChan below startChan is rejected, as `splitMainTable` asserts | not executed | MsSplit.EmptyRangeDividesByZero | MsSplit.ValidatedSplitSizes |
| Code/Components/Services/cpmanager/current/askap/ingest/server.py:22 | `initialize_services` passes `self.fcm`, an attribute nothing assigns: `Server.__init__` never sets it and `_config_from_fcm` binds the FCM proxy only to a local name | any start of the ingest manager: the first statement raises AttributeError before the observation service is added or the topic is touched | the FCM proxy found by `_config_from_fcm` is kept on the server and passed on | not executed | IngestServer.FcmMissingStopsSetup | IngestServer.InitializeServices |
