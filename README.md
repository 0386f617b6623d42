# Incident pipeline core, modelled in Dafny

This project models the three sequential pieces of an emergency-incident
simulation pipeline, and proves what each one promises:

- **The hotspot configuration validator** (`validate_hotspots`). It walks
  the `hotspots` list of a JSON configuration. For each violated rule it
  appends one human-readable message, and it keeps a set of the ids
  accepted so far. The rules cover:
  - the structure of the list and of each entry;
  - a present, unique `id`;
  - a real `name`;
  - non-null, numeric `lat`/`lon`;
  - a convertible, positive `weight`.
- **The incident generator** (`choose_location`, `sample_time_minute`,
  `sample_severity`, `generate_incidents` and the `Incident` record). Each
  incident is placed in one of two ways:
  - with probability `hotspot_fraction`, at a hotspot picked by weight;
  - otherwise, at a catalog node picked uniformly.

  It is then stamped with a minute of the horizon and a severity. The
  seeded numpy generator is modelled as a stream of draws in [0, 1) with a
  position in it. Each incident takes four draws, in this order: location
  branch, location pick, minute, severity.
- **The resumable ledger** (`get_last_incident_id`, `append_dataframe`).
  It is a CSV file of incidents:
  - a query finds the largest `incident_id` already stored;
  - an append adds a batch of rows, and writes the header only when it
    creates the file.

  The file is a `CsvFile` object whose `contents` are either absent or a
  header with rows. `Append` updates those contents in place.

Files:

| file | module(s) | what it holds |
|---|---|---|
| `wrappers.dfy` | `Wrappers` | `Option` and `Result` |
| `pyvalues.dfy` | `PyValues` | deserialised JSON values, and the Python builtins the code applies to them: `dict.get`, `str()`, `float()`, `int()`, `str.strip()`, `str.startswith()` |
| `sequences.dfy` | `Sequences` | concatenation of a sequence of sequences; collecting a sequence of results up to the first error |
| `draws.dfy` | `Draws` | the generator as a draw stream: `random()`, `integers(0, k)`, `choice(k, p=...)` and normalised weights |
| `hotspots.dfy` | `Hotspots`, `HotspotsProperties` | the validator, as a loop method proved against a specification of its findings, and the properties of those findings |
| `incident_generator.dfy` | `IncidentGenerator`, `IncidentGeneratorProperties` | the samplers, one pass of the generation loop, the loop method proved against `Generate`, and the properties of the generated records |
| `ledger.dfy` | `Ledger`, `LedgerProperties` | the store, the last-id query, the `CsvFile` class with `Append`, and the resume lemmas |

The hotspot validator and the generation loop are imperative:
- `Hotspots.ValidateHotspots` and `IncidentGenerator.GenerateIncidents`
  are methods with loops.
- Their loop invariants tie the growing error list, the seen-id set, the
  records and the generator position to specification functions
  (`FindingsUpTo`, `SeenUpTo`, `Generate`).
- The lemmas about those functions carry the properties.

The samplers are functions that take a generator and return the value
together with the generator after the draws they consumed. An error, where
the source raises, is a `Result.Err`.

The model follows the code in these cases:
- `generate_incidents` with a negative `n` returns an empty list, because
  `range(n)` is empty. It does not fail.
- An entry whose `id` is JSON `null` gets the non-empty id `"None"` from
  `str(None)`, and a `null` name likewise becomes `"None"` and passes the
  name rule.

## Model

Python's `dict.get`, `float()` and `int()` (`PyValues.Get`, `PyFloat`,
`PyInt`), the generator's `random()` (`Draws.Random`) and the list of pass
outcomes (`Sequences.Tabulate`) are definitions, one case each. What they
mean for the pipeline is stated by the rows of the rules that use them:
- `MissingFieldsReported` and `WeightRule` for the validator;
- `IntField` and `RealField` for the record fields;
- `Integers`, `Choice` and `ChooseLocation` for the draws;
- `GenerateRecords` for the passes.

| member | source | states |
|---|---|---|
| PyValues.IntText | src/data/hotspots.py:38 | `str(i)` for an int (the index in `hotspots[i]`): canonical decimal digits without leading zeros that denote `\|i\|`, after a `-` exactly when `i` is negative |
| PyValues.NatText | src/data/hotspots.py:38 | the decimal text of a natural number: digits without leading zeros whose value (`DigitsValue`) is the number |
| PyValues.Truncate | src/sim/incident_generator.py:123 | `int()` of a float truncates toward zero: the result lies within 1 of the value, on the zero side |
| PyValues.TrimStart | src/data/hotspots.py:41 | leading whitespace removed: the result is empty exactly when the text is all whitespace, else it starts with a non-space |
| PyValues.TrimEnd | src/data/hotspots.py:41 | trailing whitespace removed: the result ends with a non-space, and a non-space first character is kept |
| PyValues.Strip | src/data/hotspots.py:41-42 | `strip()`: empty exactly when the text is all whitespace, otherwise it starts and ends with a non-space |
| PyValues.TrimStartSuffix | src/data/hotspots.py:41 | the left-stripped text is a suffix of the original, and what it drops is all whitespace |
| PyValues.TrimEndPrefix | src/data/hotspots.py:41 | the right-stripped text is a prefix of the original, and what it drops is all whitespace |
| PyValues.StripSlice | src/data/hotspots.py:41-42 | the stripped text is a slice of the original with whitespace on both sides; with `Strip`'s own contract this determines it |
| PyValues.StripNone | src/data/hotspots.py:41-42 | `"None".strip()` is `"None"` |
| Sequences.FlattenSnoc | src/data/hotspots.py:36-71 | appending one entry's findings appends them to the concatenation |
| Sequences.FlattenEmpty | src/data/hotspots.py:73 | the concatenated findings are empty exactly when every entry's are |
| Sequences.FlattenPrefix | src/data/hotspots.py:36-71 | the findings of a prefix of the entries are a prefix of all findings |
| Sequences.TabulateEqual | src/sim/incident_generator.py:106 | passes that agree one by one give the same list of outcomes |
| Sequences.Collect | src/sim/incident_generator.py:106-130 | a loop that stops at its first exception: it returns exactly when every step does, with the values in order |
| Sequences.CollectSnoc | src/sim/incident_generator.py:117-128 | one more successful pass appends its record |
| Sequences.CollectFirstErr | src/sim/incident_generator.py:106-130 | the first raising pass decides the exception, whatever the later passes would do |
| Draws.Index | src/sim/incident_generator.py:86 | the draw scaled to `[0, k)`: the cell `u * k` falls in, within range |
| Draws.Integers | src/sim/incident_generator.py:57 | `integers(0, high)` raises exactly when `high <= 0`, else returns a value in `[0, high)` and advances by one |
| Draws.SumGrows | src/sim/incident_generator.py:81 | prefix totals of positive weights grow strictly |
| Draws.PickFrom | src/sim/incident_generator.py:82 | the search over cumulative weights stays in range and lands on the cell that holds the draw |
| Draws.Pick | src/sim/incident_generator.py:82 | the index `choice(k, p=p)` returns is the one whose cumulative band holds the draw |
| Draws.Choice | src/sim/incident_generator.py:46 | `choice(k, p=p)` returns an index in range whose band holds the next draw, and advances by one |
| Draws.Normalized | src/sim/incident_generator.py:81 | `weights / weights.sum()`: each probability times the total is its weight; same length, positive, summing to 1 |
| Draws.NormalizedPrefix | src/sim/incident_generator.py:81 | each prefix of the divided weights is that prefix's total divided by the sum |
| Draws.ChoiceUnique | src/sim/incident_generator.py:82 | only one band holds a draw, so the picked index is determined by the draw |
| Hotspots.Messages | src/data/hotspots.py:38-71 | one message per finding, in order, each the text `Message` gives its rule (with `Position` for `hotspots[i]`) |
| Hotspots.MessagesAppend | src/data/hotspots.py:38-71 | the messages of appended findings are the appended messages |
| Hotspots.Label | src/data/hotspots.py:55 | an entry is named by its id when non-empty, else by `hotspots[i]` |
| Hotspots.IdFindings | src/data/hotspots.py:47-52 | an empty id yields the missing/empty finding; a non-empty id already accepted yields the duplicate finding; otherwise nothing; never more than one |
| Hotspots.NameFindings | src/data/hotspots.py:54-55 | one placeholder-name finding exactly when the name is empty or starts with `HOTSPOT_NAME_` (`StartsWith`) |
| Hotspots.CoordFindings | src/data/hotspots.py:57-64 | at most one finding: null when a coordinate is null or missing; only otherwise non-numeric, when `float()` rejects one |
| Hotspots.WeightFindings | src/data/hotspots.py:66-71 | at most one finding: invalid when `float()` raises (also for a missing weight), non-positive when it converts to `<= 0` |
| Hotspots.EntryFindings | src/data/hotspots.py:37-39 | a non-object entry yields exactly the one "must be an object" finding |
| Hotspots.ObjectEntryFindings | src/data/hotspots.py:41-71 | an object entry yields at most four findings; the missing-id finding exactly when its id is empty; every non-id finding is labelled by id or position |
| Hotspots.EntryClean | src/data/hotspots.py:41-71 | an entry yields nothing exactly when it is a usable object whose id was not accepted before |
| Hotspots.NextSeen | src/data/hotspots.py:47-52 | the accepted ids only grow; a non-object entry or an empty id leaves them, and a non-empty id joins them |
| Hotspots.Reports | src/data/hotspots.py:36-71 | one report per entry, in order: report `j` is the findings of entry `j` given the ids accepted before it |
| Hotspots.FindingsStep | src/data/hotspots.py:36-71 | each entry appends its own findings after those of the entries before it |
| Hotspots.Findings | src/data/hotspots.py:30-32 | a missing or non-list `hotspots` gives only the not-a-list finding |
| Hotspots.ValidateHotspots | src/data/hotspots.py:21-73 | the returned list is exactly the messages of the specified findings, entry by entry |
| Hotspots.CheckEntry | src/data/hotspots.py:37-71 | one loop pass appends the entry's messages and updates the seen ids as specified |
| Hotspots.CheckId | src/data/hotspots.py:47-52 | the id branch appends the id findings' messages; only a new non-empty id is added |
| Hotspots.CheckName | src/data/hotspots.py:54-55 | the name branch appends the name findings' messages |
| Hotspots.CheckCoords | src/data/hotspots.py:57-64 | the coordinate branch appends the coordinate findings' messages |
| Hotspots.CheckWeight | src/data/hotspots.py:66-71 | the weight branch appends the weight findings' messages |
| HotspotsProperties.NotAListReported | src/data/hotspots.py:30-32 | a missing or non-list `hotspots` gives exactly `["'hotspots' must be a list"]` |
| HotspotsProperties.SeenIsIdsBefore | src/data/hotspots.py:34-52 | the seen ids after `k` entries are exactly the non-empty ids of the object entries among them |
| HotspotsProperties.IdsBeforeStep | src/data/hotspots.py:47-52 | one more entry adds its id to the earlier ids when it has one |
| HotspotsProperties.SeenGrows | src/data/hotspots.py:52 | the seen ids only grow along the loop |
| HotspotsProperties.SeenStep | src/data/hotspots.py:52 | one pass keeps every id seen before it |
| HotspotsProperties.FindingsOnlyAppended | src/data/hotspots.py:36-71 | findings are only appended: those of a prefix are a prefix of those of a longer one |
| HotspotsProperties.DuplicateReported | src/data/hotspots.py:49-50 | an entry is reported as a duplicate exactly when an earlier object entry has the same non-empty id, so a first occurrence never is |
| HotspotsProperties.NullIdIsNone | src/data/hotspots.py:41 | an `id` of `null` is `str(None)`, the non-empty id `"None"` (`EntryId`), so the entry is not reported as missing one |
| HotspotsProperties.NullNameIsNone | src/data/hotspots.py:42 | a `name` of `null` is `"None"` (`EntryName`), which the name rule accepts |
| HotspotsProperties.MissingFieldsReported | src/data/hotspots.py:41-45 | absent fields take their `get` defaults: a missing id is reported missing, a missing name as a placeholder, a missing coordinate as null, a missing weight as invalid |
| HotspotsProperties.WeightRule | src/data/hotspots.py:66-71 | the weight rule by kind of value: null, lists and dicts are invalid; an int is accepted exactly when positive and below the double overflow bound, and invalid exactly beyond it; a float exactly when positive; `true` passes and `false` is non-positive |
| HotspotsProperties.IdsBeforeMember | src/data/hotspots.py:49-52 | an id was accepted before `k` exactly when an earlier object entry carries it |
| HotspotsProperties.ReportClean | src/data/hotspots.py:37-71 | an entry reports nothing exactly when it is usable and its id is new |
| HotspotsProperties.ReportsClean | src/data/hotspots.py:36-71 | the first `k` entries report nothing exactly when each one does |
| HotspotsProperties.NewIdsDistinct | src/data/hotspots.py:49-52 | each id is new on arrival exactly when the ids are pairwise distinct |
| HotspotsProperties.CleanPrefix | src/data/hotspots.py:36-71 | no findings for the first `k` entries exactly when they are all usable with distinct ids |
| HotspotsProperties.NoMessagesIffUsable | src/data/hotspots.py:21-73 | the result is empty exactly when `hotspots` is a list of objects with non-empty, distinct ids, real names, non-null numeric coordinates and positive weights |
| IncidentGenerator.SampleSeverity | src/sim/incident_generator.py:38-46 | one of `low`, `medium`, `high`, chosen by the band of the next draw (`SeverityBand`: below 0.6, below 0.9, the rest); one draw consumed |
| IncidentGenerator.SeverityCumulative | src/sim/incident_generator.py:45 | the severity probabilities are positive with cumulative totals 0.6, 0.9 and 1 |
| IncidentGenerator.SampleTimeMinute | src/sim/incident_generator.py:49-58 | a minute in `[0, horizon)` from one draw; raises exactly when `horizon <= 0` |
| IncidentGenerator.Weight | src/sim/incident_generator.py:79-80 | `float(h.get("weight", 1.0))` clipped below at `1e-6`: raises exactly when `float()` does, 1 for a missing weight, otherwise the larger of the value and `1e-6` |
| IncidentGenerator.WeightsFrom | src/sim/incident_generator.py:79-80 | the clipped weights, positive and one per hotspot in order, or the first hotspot whose weight `float()` rejects |
| IncidentGenerator.ChooseLocation | src/sim/incident_generator.py:61-87 | raises exactly for a fraction outside [0, 1]; takes two draws (the second picks it, see `ChooseLocationPick`); a hotspot when the first draw is below the fraction and there are hotspots, else a node; raises for an empty node list only on the node branch |
| IncidentGenerator.ChooseLocationPick | src/sim/incident_generator.py:76-87 | the second draw picks the location: on the hotspot branch the weights convert and the hotspot is the one whose band of the normalised weights holds the draw (a pick weighted by hotspot weight, by `Pick` and `Normalized`); otherwise there are nodes and the node is the cell of the draw among `\|nodes\|` equal cells (a uniform pick) |
| IncidentGenerator.IntField | src/sim/incident_generator.py:123 | `int(loc[key])`: KeyError exactly when the key is missing, else the converted value or a conversion error |
| IncidentGenerator.RealField | src/sim/incident_generator.py:124-125 | `float(loc[key])`: KeyError exactly when the key is missing, else the converted value or a conversion error |
| IncidentGenerator.MakeIncident | src/sim/incident_generator.py:117-128 | the record is built exactly when `node_id`, `lat`, `lon` exist and convert; it copies them, `region_id` and `hotspot_id` (`HotspotIdOf`: `str(id)` when the id is not `None`) from the location, with the given id, minute and severity |
| IncidentGenerator.NextIncident | src/sim/incident_generator.py:107-128 | one pass consumes four draws and builds a record with the given id, a minute in the horizon and a severity label; when it raises is `NextIncidentRaises` |
| IncidentGenerator.NextIncidentDraws | src/sim/incident_generator.py:107-115 | the draw order of one pass: the minute is the cell of draw `pos + 2` in the horizon and the severity the band of draw `pos + 3`, after the two location draws |
| IncidentGenerator.NextIncidentPlace | src/sim/incident_generator.py:107-125 | a built record takes its place fields from the location `choose_location` returned |
| IncidentGenerator.NextIncidentRaises | src/sim/incident_generator.py:107-128 | a pass returns exactly when `choose_location` does, the horizon is positive and the chosen location has convertible `node_id`, `lat`, `lon`; otherwise it raises `choose_location`'s error, the empty-range error of `integers`, or the KeyError for a missing `node_id` |
| IncidentGenerator.PassesGrow | src/sim/incident_generator.py:117-128 | a successful pass appends its record to those collected so far |
| IncidentGenerator.GenerateFails | src/sim/incident_generator.py:106-115 | the first pass that raises makes the whole call raise the same error |
| IncidentGenerator.GenerateDone | src/sim/incident_generator.py:130 | after all passes the call returns the collected records |
| IncidentGenerator.GenerateIncidents | src/sim/incident_generator.py:90-130 | the loop returns exactly `Generate`: the records of the `n` passes on the seeded stream, or the first exception |
| IncidentGeneratorProperties.GenerateRecords | src/sim/incident_generator.py:104-130 | a successful call returns `max(n, 0)` records; record `j` is the one pass `j` builds from draw `4 * j` on, with id `j + 1`, a minute in the horizon and a severity label |
| IncidentGeneratorProperties.GenerateIds | src/sim/incident_generator.py:119 | the ids of a successful call are exactly `1 .. n`, in order |
| IncidentGeneratorProperties.GenerateDraws | src/sim/incident_generator.py:106-126 | record `j` takes its minute from draw `4 * j + 2` and its severity from draw `4 * j + 3` of the seeded stream |
| IncidentGeneratorProperties.PassDraws | src/sim/incident_generator.py:106-115 | the record of pass `j` takes its minute from draw `4 * j + 2` and its severity from draw `4 * j + 3` |
| IncidentGeneratorProperties.GenerateLocations | src/sim/incident_generator.py:107-125 | each record copies its place fields from its pass's location, a hotspot when the branch draw chose one and a node otherwise |
| IncidentGeneratorProperties.HotspotIdMarksBranch | src/sim/incident_generator.py:121 | when all hotspots have an id and no node does, a record has `hotspot_id` exactly when its pass took the hotspot branch |
| IncidentGeneratorProperties.FractionExtremes | src/sim/incident_generator.py:76-87 | a fraction of 0 never picks a hotspot; a fraction of 1 always does when there are hotspots; without hotspots the result is a node |
| IncidentGeneratorProperties.BadFractionRaises | src/sim/incident_generator.py:73-74 | a fraction outside [0, 1] makes a call with `n > 0` raise `ValueError` |
| IncidentGeneratorProperties.EmptyHorizonRaises | src/sim/incident_generator.py:57 | an empty horizon makes a call with `n > 0` raise; it raises at `integers` unless the location already did |
| IncidentGeneratorProperties.NextIncidentTotal | src/sim/incident_generator.py:106-128 | on inputs that cannot raise, every pass builds its record whatever the draws |
| IncidentGeneratorProperties.GenerateTotal | src/sim/incident_generator.py:90-130 | on inputs that cannot raise, the call returns its records whatever the draws |
| IncidentGeneratorProperties.GenerateOkIff | src/sim/incident_generator.py:90-130 | a call returns exactly when every pass `j < n` can build its record from the location it draws (`PassBuilds`), so a bad location no pass draws never makes it raise |
| IncidentGeneratorProperties.ChooseLocationLocal | src/sim/incident_generator.py:76-87 | the location or error depends on the next two draws only |
| IncidentGeneratorProperties.NextIncidentLocal | src/sim/incident_generator.py:107-128 | a pass's record or error depends on its four draws only |
| IncidentGeneratorProperties.PassLocal | src/sim/incident_generator.py:106-128 | pass `j` depends on draws `4 * j .. 4 * j + 3` only |
| IncidentGeneratorProperties.GenerateReproducible | src/sim/incident_generator.py:103-130 | the output is a function of the inputs and the first `4 * n` draws: two generators that agree on them give the same result |
| Ledger.ColumnIndex | src/utils/io.py:28 | the position of the first column with the name |
| Ledger.IdCells | src/utils/io.py:28 | `df["incident_id"]`: one cell per row, in order, read under that column (`CellAt`: blank for a short row) |
| Ledger.ColumnMax | src/utils/io.py:28 | `max()` skipping blanks: defined exactly when every cell is an integer or blank; present exactly when some cell is an integer, and then an upper bound that occurs |
| Ledger.LastIncidentId | src/utils/io.py:14-26 | 0 for a missing file, an empty frame (`Empty`: no columns or no rows) or a frame without an `incident_id` column |
| Ledger.Appended | src/utils/io.py:31-39 | an empty batch changes nothing; a missing file is created with the batch; otherwise the header stays and the batch rows follow the old rows unchanged |
| Ledger.CsvFile.constructor | src/utils/io.py:31 | the file starts with the given contents |
| Ledger.CsvFile.Append | src/utils/io.py:31-39 | the new contents are the old ones with the batch appended as `Appended` states |
| LedgerProperties.MaxDetermined | src/utils/io.py:28 | the maximum of the id cells is unique |
| LedgerProperties.ColumnMaxConcat | src/utils/io.py:28 | the maximum of two id columns joined is the larger of their maxima |
| LedgerProperties.AppendEmptyNoop | src/utils/io.py:35-36 | an empty batch leaves the file and its last id as they were, a missing file still missing |
| LedgerProperties.IdCellsAppended | src/utils/io.py:38-39 | after an append under the same header, the id column is the old one followed by the batch's |
| LedgerProperties.NumberedMax | src/utils/io.py:28 | a batch numbered `L + 1 .. L + k` has maximum id `L + k` |
| LedgerProperties.StoredBelow | src/utils/io.py:28 | every stored integer id is at most the last id |
| LedgerProperties.LastIdOfColumn | src/utils/io.py:28 | for a file with rows and an id column: the last id exists exactly when some cell is an integer and none is neither integer nor blank; it is then the largest id and occurs; an all-blank column raises at `int(nan)` |
| LedgerProperties.LastIdIsMax | src/utils/io.py:28 | for a file with rows and an id column, the last id is exactly the column's maximum |
| LedgerProperties.ResumeLastId | src/utils/io.py:14-39 | appending a batch numbered `L + 1 .. L + k` to a file whose last id is `L` makes the last id `L + k` |
| LedgerProperties.GrownLastId | src/utils/io.py:38-39 | the same for an existing file |
| LedgerProperties.GrownMax | src/utils/io.py:38-39 | the grown id column's maximum is the batch's maximum |
| LedgerProperties.ResumeDistinct | src/utils/io.py:38-39 | appending keeps the ids of an existing file distinct; every new id lies above every stored one |
| LedgerProperties.ResumeCreates | src/utils/io.py:38-39 | a batch numbered after `L` creates a missing file with distinct ids |
| LedgerProperties.ShiftedNumbering | src/sim/incident_generator.py:119 | the local ids `1 .. k` shifted by `L` number the batch `L + 1 .. L + k` |
| LedgerProperties.ResumeKeepsDistinct | src/utils/io.py:38-39 | after the numbered batch the file has distinct ids when it was missing or held distinct ids |
| LedgerProperties.ResumeBatch | src/utils/io.py:14-39 | resuming a run: with `L` the last id, records with local ids `1 .. k` remapped to `L + 1 .. L + k` and appended make the last id `L + k`; the ids are distinct afterwards when the file was missing or held distinct ids |

## Left out

- Python's `str()` of a float and of a list or dict, and `float()`/`int()`
  of a string, are not spelled out. They are the functions of the
  `PyValues.Builtins` parameter. The text of `None`, of booleans and of
  integers is modelled exactly.
- Floating point: reals are exact in the model. The clipped weights, their
  normalisation, the cumulative probabilities behind `choice` and the
  severity probabilities 0.6/0.3/0.1 are ideal reals, so they sum to
  exactly 1. Rounding, NaN and infinities are not modelled, and
  `float('nan')` as a weight, which `np.clip` would carry through, is not
  covered.
- Draws.Integers: numpy's `integers` draws bounded integers from raw bits
  with rejection sampling, so the number of raw draws it consumes varies.
  The model takes one uniform draw and uses the cell `floor(u * k)`. Which
  integer a given seed produces therefore differs from numpy, and so does
  the way numpy's generator advances. Only the range and the error are
  numpy's; numpy's further `ValueError` for a `high` beyond the int64
  range (a `horizon_min` above `2^63`) is not modelled, because integers
  are unbounded here and such a horizon yields a minute.
- Draw positions: each sampler consuming exactly one draw is the model's
  own accounting, and so are the four draws per incident. The positions
  `4 * j .. 4 * j + 3` in `GenerateRecords`, `GenerateDraws`, `PassLocal`
  and `GenerateReproducible` are positions in the abstract stream of
  draws, not in numpy's bit stream.
- Draws.Choice: numpy's `choice` also validates `p` against a tolerance.
  The model requires probabilities that sum to exactly 1, which
  `Draws.Normalized` guarantees.
- Seeding: `default_rng(seed)` is not modelled. The stream of draws it
  produces is the `stream` parameter, and the unseeded case (`seed=None`)
  is a stream like any other.
- `load_hotspots` and `hotspots_to_dataframe` (file reading and pandas
  conversion) are not part of this model. Nor are the simulation manager,
  the data-foundation tier, the run manager, the logger, the cache and
  debug helpers, or the plotting code.
- A hotspot or node that is not a `dict` (the generator calls `.get` and
  `[]` on it) is outside the model: locations are `map<string, Json>`.
- The conversion of `Incident` records into a `DataFrame`, and the shift of
  the local ids by the ledger's last id, are the caller's steps (a
  notebook). `LedgerProperties.ResumeBatch` states them as requirements on
  the batch frame; they are not an operation of the model.
- pandas reading and writing: the file is modelled by what `read_csv` gives
  back, a header and rows of cells. Not modelled:
  - dtype inference and the text round trip of cell values;
  - the alignment of a batch whose columns differ from the header;
  - rows longer than the header;
  - a zero-byte file, on which `read_csv` raises `EmptyDataError`.
- Ledger.ColumnMax: a float or text cell in the `incident_id` column is
  reported as `NonNumericId`. pandas would instead take the maximum of a
  float column and truncate it with `int()`, and would compare strings in
  a text column.
- Ledger.LastIncidentId: its own contract states only the cases that return
  0. The full characterisation of the other case is the lemma
  `LedgerProperties.LastIdOfColumn`.
- The defaults `seed=42` and `hotspot_fraction=0.8` of `generate_incidents`
  (and `0.8` of `choose_location`) are not modelled as defaults. The
  fraction is an explicit parameter and the seed is the stream it
  produces.
- The hotspot configuration is a value, so the validator cannot modify its
  input. The source's promise to leave it unmodified holds by construction
  and is not stated separately.
