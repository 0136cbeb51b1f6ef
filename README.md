# covid_dash ETL transform, modelled in Dafny

This project models the row-level core of `data.py`, the script that
downloads the brasil.io `caso_full` COVID-19 table and turns it into a
"trusted" table. What is modelled is the part of `transform()` that works
on rows and columns, the choice of the newest raw snapshot, and the
timestamped names of the raw and trusted files:

- `base.dfy` (`Base`): `Option` for nullable cells, `Result` for raised
  exceptions, and `NoDuplicates`.
- `table.dfy` (`Table`): the raw row, cells by column name, `df[cols]`
  (`Select`, with its KeyError) and `df.rename(columns = ...)`
  (`RenameFrame`), with the column lists and the rename dictionary.
- `city_filter.dfy` (`CityFilter`): keeping the rows whose `place_type` is
  `"city"`.
- `state_ids.dfy` (`StateIds`): the state-to-identifier dictionary built by
  `drop_duplicates().reset_index(drop = True)` and `Series(...).to_dict()`.
- `code_patch.dfy` (`CodePatch`): the masked assignment that fills missing
  `city_ibge_code` cells, as a method that updates an array of rows in place
  and is proved against the row-by-row function `Patched`.
- `latest_file.dfy` (`LatestFile`): `max(files, key = os.path.getctime)`.
- `file_names.dfy` (`FileNames`): `caso_full_` + `strftime("%Y%m%d_%H_%M")`
  + `.csv.gz` or `.parquet.gzip`, with a parser that reads names back.
- `transform.dfy` (`Transform`): the whole of `transform()` minus its I/O and the type coercion,
  as a method, and what the trusted table holds.

The file system listing with each entry's ctime (`st_ctime`: the time of
the last metadata change on Unix, the creation time on Windows), the
contents of the chosen snapshot (a function from path to rows) and the
current time are parameters; nothing reads a clock, a disk or the network.

An empty raw directory makes `max()` raise ValueError, modelled as
`Error.EmptyArgument`. A row whose state is missing from the identifier dictionary would keep its
missing code, because `Series.map(dict)` yields NaN for an unknown key
(with the dictionary built from the table's own states this never happens,
`CodePatch.PatchWithOwnStateIds`).

`%Y` is modelled as the C library on Linux prints it: the year's digits
without padding. For the years 1000 to 9999 that is four digits and the
names have a fixed layout (`FileNames.FourDigitYearLayout`).

## Model

| member | source | states |
|---|---|---|
| `Table.Cell` | data.py:102-104 | a cell exists exactly for the nine columns the raw row carries |
| `Table.Missing` | data.py:104 | lists exactly the requested columns the table lacks |
| `Table.Select` | data.py:104 | `df[cols]` fails with a KeyError exactly when a requested column is unknown; otherwise it has the requested columns in the requested order, the same number of rows, and each cell is the row's cell in that column |
| `Table.Lookup` | data.py:108-119 | a rename lookup returns a pair of the dictionary, and nothing exactly when no pair has that key |
| `Table.RenameColumns` | data.py:119 | renaming keeps the number and order of columns; a column the dictionary knows takes the new name of one of its pairs, any other keeps its name |
| `Table.RenameFrame` | data.py:119 | `df.rename(columns = ...)` keeps every row and cell as it was and renames the columns in place, leaving unknown columns alone |
| `Table.RenamePairsOneToOne` | data.py:108-117 | no old name and no new name appears twice in the rename dictionary |
| `Table.RenameRoundTrip` | data.py:119 | renaming with a one-to-one dictionary, when every column is a key of the dictionary, is undone by renaming with the swapped dictionary |
| `Table.RenameKeepsDistinct` | data.py:119 | renaming with a one-to-one dictionary, when every column is a key of the dictionary, keeps distinct column names distinct |
| `Table.SourceRenamesToTarget` | data.py:102-119 | the eight selected columns are renamed in order to `ID_LOCAL`, `DT_REGISTRO`, `NM_CIDADE`, `NM_ESTADO`, `VL_POPULACAO_ESTIMADA`, `COD_SEQUENCIA_POR_LOCAL`, `VL_CONFIRMADOS`, `VL_MORTOS`, eight distinct names |
| `Table.SelectSourceColumns` | data.py:102-104 | selecting the eight source columns never fails, keeps every row in order and keeps exactly code, date, city, state, population, order, confirmed, deaths |
| `CityFilter.FilterCities` | data.py:90 | a row is kept exactly when it is in the input and its `place_type` is `"city"` |
| `CityFilter.FilterCitiesAppend` | data.py:90 | filtering a concatenation is the concatenation of the filtered parts, so input order is kept |
| `CityFilter.FilterCitiesCounts` | data.py:90 | each city row is kept as many times as it occurs, every other row zero times |
| `CityFilter.FilterCitiesIdempotent` | data.py:90 | filtering the filtered rows changes nothing |
| `StateIds.DropDuplicates` | data.py:95 | the result has no duplicates and holds exactly the values of the input |
| `StateIds.DropDuplicatesFirstOrder` | data.py:95 | the distinct values are listed in order of their first appearance |
| `StateIds.DropDuplicatesPrefix` | data.py:95 | the distinct values of a prefix are a prefix of the distinct values |
| `StateIds.PositionMap` | data.py:96 | the dictionary has the listed values as keys and maps each to its zero-based position |
| `StateIds.StateIdMap` | data.py:95-96 | the state dictionary has exactly the states of the column as keys, each mapped to a number from 0 below the number of distinct states |
| `StateIds.StateIdCountsEarlier` | data.py:95-96 | a state's identifier is the number of distinct states seen before its first appearance; the first state gets 0 |
| `StateIds.StateIdMapShape` | data.py:95-96 | the keys are exactly the distinct states, the values exactly 0 to their number minus one, and no two states share a value |
| `StateIds.StateIdOrder` | data.py:95-96 | a state gets a smaller identifier than another exactly when it first appears earlier |
| `CodePatch.PatchRow` | data.py:98 | a row with a code is unchanged; a row without one gets its state's identifier when the state is known and stays missing otherwise; no other field changes |
| `CodePatch.Patched` | data.py:98 | the patched table has the same rows in the same order; rows with a code are unchanged, rows without one whose state is known get its identifier, and no field but the code changes |
| `CodePatch.PatchMissingCodes` | data.py:98 | the in-place masked assignment leaves the table equal to the row-by-row patch of the old table |
| `CodePatch.PatchedIdempotent` | data.py:98 | patching a patched table changes nothing |
| `CodePatch.PatchWithOwnStateIds` | data.py:95-98 | with identifiers built from the table's own states, no row is left without a code, missing codes become their state's identifier and rows with a code are unchanged |
| `LatestFile.LatestIndex` | data.py:82 | the chosen entry has the largest ctime, and every entry before it has a strictly smaller ctime |
| `LatestFile.Latest` | data.py:80-82 | fails exactly on an empty directory; otherwise returns an entry of the listing whose ctime is at least every other's |
| `LatestFile.RawPath` | data.py:80 | the path names the entry: two entries get the same path exactly when they have the same name |
| `LatestFile.LatestIndexUnique` | data.py:82 | being maximal and first among maximal entries determines the chosen entry |
| `LatestFile.LatestPrefersFirstOnTies` | data.py:82 | when all ctimes are equal, the first listed entry is chosen |
| `FileNames.Decimal` | data.py:55 | the year is printed as one or more decimal digits |
| `FileNames.Pad2` | data.py:55 | month, day, hour and minute are printed as exactly two digits |
| `FileNames.Stamp` | data.py:55 | `strftime("%Y%m%d_%H_%M")` is the year's digits followed by ten characters: month and day digits, `_`, hour digits, `_`, minute digits |
| `FileNames.RawFileName` | data.py:61 | the raw snapshot name starts with `caso_full_`, ends with `.csv.gz` and reads back to the time it was made at |
| `FileNames.TrustedFileName` | data.py:150-152 | the trusted name starts with `caso_full_`, ends with `.parquet.gzip` and reads back to the time it was made at |
| `FileNames.DecimalRoundTrip` | data.py:55 | reading back the printed year gives the year |
| `FileNames.Pad2RoundTrip` | data.py:55 | reading back a zero-padded two-digit field gives the field |
| `FileNames.StampRoundTrip` | data.py:55 | parsing the `%Y%m%d_%H_%M` stamp gives back the time it was printed from |
| `FileNames.FileNameRoundTrip` | data.py:150-152 | a file name made of the dataset prefix, a stamp and a suffix reads back to its time |
| `FileNames.FileNamesDetermineTime` | data.py:55-61 | raw and trusted names read back to their time, and two names are equal exactly when their times are |
| `FileNames.FourDigitDecimal` | data.py:55 | years 1000 to 9999 print as four digits |
| `FileNames.FourDigitYearLayout` | data.py:150-152 | for four-digit years the stamp is eight digits, `_`, two digits, `_`, two digits, and the raw and trusted names are 31 and 37 characters long |
| `Transform.Transform` | data.py:71-152 | fails with the `max()` error exactly when the raw directory is empty; otherwise writes to `data_lake/trusted/` under the name for the time of writing a table equal to the table steps applied to the newest snapshot, with the eight target columns |
| `Transform.TrustedTable` | data.py:90-119 | the table steps give the eight target columns and exactly one row per city row of the snapshot |
| `Transform.TrustedTableContents` | data.py:88-119 | the trusted table has the eight target columns and one row per city row in order; every cell but the first is copied; the first is the row's code or, when missing, its state's identifier, so it is never missing |
| `Transform.SingleCityScenario` | data.py:90-98 | a city row without a code next to a state-level row of the same state yields one row whose `ID_LOCAL` is 0 |

## Left out

- `download()` (data.py:44-69): the HTTP request, its status check and the writing of the response body are I/O; only the file name it builds is modelled.
- `create_folders()` (data.py:27-42) and `clear_folder()` (data.py:9-25): directory creation and deletion are file-system side effects.
- Reading the gzip CSV (data.py:86) and writing parquet (data.py:152): the codecs are library I/O; the snapshot's rows are a parameter and the method returns the table and path it would write.
- The type-coercion loop (data.py:121-142): `astype('Int64')` and `pd.to_datetime(errors = 'coerce')` follow pandas' parsing and casting rules; the model keeps dates as text and numbers as nullable integers.
- `datetime.now()` and `os.path.getctime`: the time of writing and the ctimes are parameters; ctimes are `int`s where Python returns floats, which is enough because they are only compared; on Unix a ctime changes with any metadata change (a chmod or rename), so the newest ctime need not be the newest download.
- Missing `state` values: what `Series.map(dict)` does with a NaN key is library behaviour; the model's `state` is always a string.
- Raw tables without one of the nine columns the model knows: the row type always carries them, so the KeyError of `df[cols]` is modelled by `Table.Select` but cannot arise in `Transform.Transform`.
- Pandas' row index: the filter keeps the original index labels, which only serve to align the masked assignment; the model uses positions.
- Years below 1000: Python passes `%Y` to the platform's C library, which pads on some platforms and not on others; the model prints no padding.
