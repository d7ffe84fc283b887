# Spork: a verified model of the profile-processing pipeline

Spork reads business profiles from a text file. Each profile has a name, an (x, y) location, an average rating and an advertising level. Spork then marks each business as nearby (within a maximum distance of the user) and as good (rated at least a minimum). It picks the nearby, good business with the highest ad level as the sponsor. Finally it writes the sponsor's line first, followed by every other nearby, good business with an ad level from 0 to 2, in the order they were loaded.

The model follows the C source's own shape. Profiles are records (`Profiles.Profile`, the C struct) held in an `array<Profile>` with a separate `numProfiles` count. Each stage of `sporkprofile.c` is a method with the source's loop, proved against a specification function on `array[..]`. The lemmas then state what the source promises about those functions.

- `profile.dfy`, module `Profiles`: the record, an `Option` type, and the Euclidean distance. The square-root routine is a parameter `sqrt: real -> real`.
- `loader.dfy`, module `Loader`: the line-acceptance loop of `ReadSporkDataFromFile`. Each input line arrives already tokenised as a `ScannedLine`: up to five fields, each possibly missing, plus a flag saying whether a sixth non-blank token followed. The parse variables persist across lines, as they do in the C code.
- `filters.dfy`, module `Filters`: `FindNearbyBusinesses` and `FindGoodBusinesses`.
- `sponsor.dfy`, module `Sponsor`: `GetIndexMaxSponsor` as written, and a corrected version (see Findings).
- `writer.dfy`, module `Writer`: `WriteSporkResultsToFile`, modelled as the sequence of array indices whose lines it prints, plus its status.
- `driver.dfy`, module `Driver`: the stage order of `main`, the end-to-end output property, and the worked example.

Where the source's comments and the code disagree, the model follows the code:
- Loaded records get `isNearby = isGood = true` and `distMiles = 0.0`, even though a comment asks for `false`.
- The loader never compares its count with the array capacity, so capacity is a precondition.
- A line with trailing content is skipped; loading continues with the next line.
- A line missing some fields is stored with the previous line's values for those fields.
- Loading stops when, after a line is scanned, the name equals `"empty"`. Either no line has supplied a name yet, or the line's name is literally `empty`; a business called `empty` therefore ends loading.
- The writer returns 0 on every path.

## Model

| member | source | states |
|---|---|---|
| `Profiles.SquaredDistance` | sporkprofile.c:113 | The value passed to `sqrt` is never negative. |
| `Loader.Load` | sporkprofile.c:71-93 | Never more records than lines. Every stored record has `isNearby` and `isGood` true, `distMiles` 0.0, and a name other than the sentinel `"empty"`. |
| `Loader.LoadLength` | sporkprofile.c:74-95 | If the loop never breaks, the count equals the number of lines with nothing after the fifth field. |
| `Loader.LoadStopsAtSentinel` | sporkprofile.c:62-79 | If the name equals `"empty"` right after line k is scanned, line k and every later line contribute nothing. |
| `Loader.LoadAt` | sporkprofile.c:76-89 | A reached line with no sixth token is stored in the slot after the records of the earlier clean lines. The record is built from the parse variables as they stand after that line, with flags true and distance 0.0. |
| `Loader.LoadInheritsFields` | sporkprofile.c:56-89 | For two consecutive stored lines, every field the second line does not supply is taken from the first line's record. |
| `Loader.ReadSporkDataFromFile` | sporkprofile.c:53-96 | Returns -1 and leaves the array unchanged when the file could not be opened. Otherwise returns the number of loaded records; slots `0..count-1` hold exactly `Load`'s records and the other slots are unchanged. |
| `Filters.FindNearby` | sporkprofile.c:112-122 | For each i < numProfiles, `distMiles` is the distance from the user and `isNearby` holds iff that distance is at most `maxDist` (inclusive). All other fields are unchanged, and records from numProfiles on are untouched. |
| `Filters.FindGood` | sporkprofile.c:135-142 | For each i < numProfiles, `isGood` holds iff `avgRating >= minRating` (inclusive). Only `isGood` changes, and records from numProfiles on are untouched. |
| `Filters.FindNearbyDistNonNeg` | sporkprofile.c:112-114 | When `sqrt` maps non-negative numbers to non-negative numbers, every stored `distMiles` below numProfiles is non-negative after the distance pass. |
| `Filters.FindNearbyIdempotent` | sporkprofile.c:112-122 | Running the distance pass twice gives the same records as running it once. |
| `Filters.FindGoodIdempotent` | sporkprofile.c:135-142 | Running the rating pass twice gives the same records as running it once. |
| `Filters.FiltersCommute` | sporkprofile.c:108-143 | The two passes write disjoint fields, so their order does not matter. |
| `Filters.FindNearbyBusinesses` | sporkprofile.c:108-123 | The array afterwards is `FindNearby` of the array before. |
| `Filters.FindGoodBusinesses` | sporkprofile.c:134-143 | The array afterwards is `FindGood` of the array before. |
| `Sponsor.ScanBestFindsFirstMax` | sporkprofile.c:156-165 | The running pair `(temp, tempadlevel)` after the first hi records: level 0 means nothing sponsorable was seen and `temp` is still 0. Otherwise `temp` is the first index holding the highest sponsorable ad level, and `tempadlevel` is that level. |
| `Sponsor.MaxSponsorSpec` | sporkprofile.c:154-172 | The selector as written returns -1 or an index in `[1, numProfiles)`, which is then the first maximum. It returns -1 exactly when nothing is sponsorable or when the first maximum is index 0. |
| `Sponsor.BestSponsor` | sporkprofile.c:147-172 | The corrected selector returns -1 exactly when nothing is sponsorable, and otherwise the first maximum. |
| `Sponsor.IndexZeroSponsorReportedAsNone` | sporkprofile.c:156-168 | A single nearby, good record at index 0 with ad level 2 is the first maximum. The selector as written still returns -1; the corrected one returns 0. |
| `Sponsor.TieGoesToFirst` | sporkprofile.c:158-164 | With two level-2 candidates at indices 3 and 7, the strict `>` comparison keeps index 3. |
| `Sponsor.GetIndexMaxSponsor` | sporkprofile.c:154-172 | The scan as written. The result is -1 or in `[1, numProfiles)`. A non-(-1) result is nearby, good, has ad level 1 or 2, and is the first index of the highest such level. The result is -1 iff nothing qualifies or that index is 0. |
| `Sponsor.GetIndexMaxSponsorFixed` | sporkprofile.c:154-172 | The same scan with `temp` starting at -1. The result is -1 iff nothing qualifies, and otherwise the first maximum. |
| `Writer.ListedBelowMembers` | sporkprofile.c:203-222 | The loop prints exactly the records below numProfiles that are nearby, good and have an ad level from 0 to 2, skipping the sponsor index. |
| `Writer.ListedBelowIncreasing` | sporkprofile.c:203-222 | The loop prints indices in strictly increasing (array) order. |
| `Writer.WriteOrderMembers` | sporkprofile.c:197-222 | Nothing is printed when numProfiles is 0, even if a sponsor is given. Otherwise a sponsor other than -1 is printed first and exactly once. Apart from the sponsor, exactly the listed records below numProfiles are printed. |
| `Writer.WriteOrderIncreasing` | sporkprofile.c:200-222 | Everything after the sponsor comes in array order, and no index is printed twice. |
| `Writer.WriteSporkResultsToFile` | sporkprofile.c:193-228 | Returns status 0 on every path. The printed indices are `WriteOrder` of the array, numProfiles and the sponsor index. |
| `Driver.SponsorDefectInvisible` | main.c:64-67 | Writing with the as-written selector's result gives the same output as writing with the corrected selector's result. |
| `Driver.OutputSpec` | main.c:62-67 | After both filters, the run prints exactly the loaded records that are within `maxDist`, rated at least `minRating` and have an ad level from 0 to 2. No index is printed twice. A non-(-1) sponsor is printed first and exactly once, and every other record follows in load (array) order. The output equals the output with the corrected selector. |
| `Driver.CafeDinerLoad` | sporkprofile.c:71-93 | The two example lines load as Cafe followed by Diner. When the last line is scanned a second time at end of file, Diner is stored twice. |
| `Driver.CafeDinerOutput` | main.c:62-67 | User at the origin, `maxDist` 2, `minRating` 4: only Cafe (index 0) is printed. The selector reports -1 even though Cafe is the first maximum. |
| `Driver.RunSpork` | main.c:44-72 | An unopenable input gives exit failure, no output and an unchanged array. Otherwise the exit status is success and the output is `Output` of the loaded records, with the rest of the array left as it was. |

## Left out

- Reading the file is not modelled: `fopen`, `fgets`, `feof` and the missing `fclose`. The loader receives the lines its loop scans, and a flag saying whether the file opened. The extra scan of the final line at end of file (`feof` is tested before `fgets` fails) is not produced by the model; a caller supplies that line twice when it applies. For an empty file the first `fgets` fails and `sscanf` then reads an uninitialised buffer, which is undefined behaviour in C; the model gives the intended result instead, zero records for `lines == []`.
- `sscanf`'s number conversion is not modelled. Each field of a `ScannedLine` is independently present or absent, which allows more combinations than `sscanf` can produce (it assigns a prefix of the fields).
- The initial values of `x`, `y`, `rate` and `ad` are indeterminate in C. In the model they are parameters.
- `double` is modelled as `real`: no rounding, infinities or NaN. `sqrt` is a parameter and is not computed.
- Text output is not modelled: the `%.2lf` formatting, the tab-separated lines, and the `printf` diagnostics. The writer's output is the sequence of printed indices.
- Memory-safety issues are not modelled. `fgets` is given 5000 as the size of a 500-byte buffer, `strcpy` copies into the 100-byte name, and the loader has no bound check. Capacity becomes a precondition of the loader and the driver.
- The loader's `maxProfiles` parameter is never read by the C code, so the model has no such parameter.
- `numProfiles` is a `nat`: `main` never passes the -1 failure value on to a later stage.
- `Writer.WriteSporkResultsToFile`: the model records which records are printed and in what order, not the text of each line. The case where the output file cannot be opened is not modelled: the source does not check `fopen`, so printing would go to a null stream.
- `main`'s argument-count check, usage message and `atof` conversions are not modelled. `Driver.RunSpork` receives the numbers already converted.

## Findings

| source | as written | input that shows it | evidently intended | confidence | as-written member | corrected member |
|---|---|---|---|---|---|---|
| sporkprofile.c:156-170 | `temp` starts at 0 and a final `temp` of 0 is returned as -1, so a winner at index 0 is reported as "no sponsor" | one record at index 0, nearby and good, with ad level 2 | return index 0, as the comment at sporkprofile.c:147-150 promises (first index of the highest ad level). The corrected selector keeps the code's rule at sporkprofile.c:160 that only ad levels 1 and 2 qualify, which the comment does not mention: it returns -1 exactly when no nearby, good record has ad level 1 or 2, so a lone nearby, good record with ad level 0 still gives -1 | not executed | `Sponsor.IndexZeroSponsorReportedAsNone` (on `Sponsor.MaxSponsor` / `Sponsor.GetIndexMaxSponsor`) | `Sponsor.GetIndexMaxSponsorFixed` / `Sponsor.BestSponsor` |

The defect does not change what the program writes. When the first maximum is index 0, the writer prints record 0 first anyway, in array order (`Driver.SponsorDefectInvisible`). The driver models `main` as written. `Driver.OutputSpec` proves that its output equals the output with the corrected selector.
