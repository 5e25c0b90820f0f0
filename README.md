# MechaTracker battle-record core, modelled in Dafny

MechaTracker reads a battle-record file of a tower-defence game, locates the
XML document inside it, decodes it into a `BattleRecord` tree and derives a
unit/tech lookup table from it. This project models the two pieces of
`XMLParser/parseBattleRecord.go` that are the repository's own logic:

- **The unit/tech lookup table** (`BuildUnitTechLUT`). It walks the players
  of a decoded record and keeps only those named exactly `"Bot"`. For each of
  their unit templates it enters every acquired tech under the unit's id,
  with the placeholder label `"Tech"`. The result has type
  `map[int]map[int]string`.
  - `battle_record.dfy` (module `BattleRecords`) holds the record types it
    reads: `BattleRecord`, `PlayerRecord`, `Data`, `UnitData` and `Tech`.
  - `unit_tech_lut.dfy` (module `UnitTechLut`) holds the method
    `BuildUnitTechLut`, whose loop runs over the players. The Go function's
    two inner loops are the methods `AddUnits` (over a player's units) and
    `AddTechs` (over a unit's acquired techs). `AddTechs` allocates a unit's
    inner map lazily, on the first tech, as the Go code does.
  - All three methods are proved against a specification. `AcquiredPairs(rec)` is
    the set of (unit id, tech data) pairs of "Bot" units. `Represents(lut, s)`
    says that the table holds exactly the pairs of `s`, that every value is
    the label, and that no inner map is empty. `LutOf(s)` is the one table
    that represents `s`, and `UnitTechLut(rec)` is `LutOf(AcquiredPairs(rec))`.
  - The remaining lemmas state the table's properties on `UnitTechLut`.
- **Locating the document** (`main`, lines 207-212). The file may start with
  an arbitrary prefix. The document begins at the first `"<?xml"`, and a file
  without the marker is rejected. `document_start.dfy` (module
  `DocumentStart`) models `strings.Index` as the recursive function `Index`.
  It models the check and the slice as `ExtractDocument`, which returns an
  `Option`: `None` stands for the program's `panic("No XML content found")`.
  Each `char` stands for one byte of the file.

`wrappers.dfy` holds the `Option` type.

The model follows the code in three places where a more general design might be expected:

- The lookup table's filter is the fixed name `"Bot"`, not a predicate the
  caller supplies.
- The marker search sits in `main` and is part of this model.
- A missing marker stops the program with a panic. It is not a typed error.

## Model

| member | source | states |
|---|---|---|
| UnitTechLut.BuildUnitTechLut | XMLParser/parseBattleRecord.go:146-165 | The returned table represents exactly the acquired pairs of the "Bot" players: it is complete, it is sound, every value is "Tech", and no inner map is empty. It equals the reference table `UnitTechLut(rec)`. |
| UnitTechLut.AddUnits | XMLParser/parseBattleRecord.go:153-162 | Adding the units of one "Bot" player to a table that holds the pairs `s` gives the table that holds `s` plus every (unit id, tech data) pair of those units. |
| UnitTechLut.AddTechs | XMLParser/parseBattleRecord.go:154-160 | Adding a unit's techs to a table that holds the pairs `s` gives the table that holds `s` plus the unit's (id, tech data) pairs. The inner map is created only when the first tech is entered. |
| UnitTechLut.LutOfRepresents | XMLParser/parseBattleRecord.go:146-164 | The reference table of a set of pairs contains every pair of the set, contains only those pairs, stores "Tech" for each, and has no empty inner map. |
| UnitTechLut.RepresentsUnique | XMLParser/parseBattleRecord.go:146-164 | Two tables that represent the same set of pairs are equal. Completeness, soundness, the constant label and "no empty inner map" therefore determine the table. |
| UnitTechLut.InsertAccumulates | XMLParser/parseBattleRecord.go:156-159 | One insertion adds the unit id and the tech with the label. It keeps every existing entry and adds nothing else, so an existing inner map is extended, never replaced. |
| UnitTechLut.InsertRepresents | XMLParser/parseBattleRecord.go:156-159 | Inserting (id, d) into a table that represents `s` yields a table that represents `s` plus (id, d). |
| UnitTechLut.LutOfInsert | XMLParser/parseBattleRecord.go:156-159 | Inserting (id, d) into the reference table of `s` gives the reference table of `s` plus (id, d). A repeated pair therefore changes nothing. |
| UnitTechLut.TechPairsMembers | XMLParser/parseBattleRecord.go:155-159 | A pair comes from a unit's tech list exactly when its id is the unit's id and some tech in the list has that data. |
| UnitTechLut.UnitsPairsMembers | XMLParser/parseBattleRecord.go:153-160 | A pair comes from a list of units exactly when some unit in the list has that id and acquired a tech with that data. |
| UnitTechLut.PlayersPairsMembers | XMLParser/parseBattleRecord.go:149-162 | A pair comes from a list of players exactly when some "Bot" player in it has a unit with that id that acquired a tech with that data. |
| UnitTechLut.UnitTechLutEntries | XMLParser/parseBattleRecord.go:149-160 | Both directions: (id, d) is in the table exactly when some "Bot" player has a unit with id `id` whose acquired techs include data `d`. The stored value is "Tech". |
| UnitTechLut.UnitTechLutComplete | XMLParser/parseBattleRecord.go:149-160 | For every "Bot" player, every unit of it and every acquired tech of that unit, the table maps the unit id and the tech data to "Tech". |
| UnitTechLut.UnitTechLutNoEmptyInner | XMLParser/parseBattleRecord.go:154-158 | Every unit id in the table has a non-empty inner map. |
| UnitTechLut.TechlessUnitsAddNoKey | XMLParser/parseBattleRecord.go:154-158 | When every "Bot" unit with a given id has no acquired techs (nil or empty), that id is not a key of the table. |
| UnitTechLut.NoBotYieldsEmpty | XMLParser/parseBattleRecord.go:147-152 | A record without a player named exactly "Bot" yields the empty table. |
| UnitTechLut.NonBotPlayerIgnored | XMLParser/parseBattleRecord.go:150-152 | Inserting a player not named "Bot" at any position leaves the table unchanged. |
| UnitTechLut.UnlockedTechIgnored | XMLParser/parseBattleRecord.go:153-159 | Two records that differ only in their units' unlocked techs give the same table. Only the acquired `Techs` are read. |
| UnitTechLut.UnitTechLutConcat | XMLParser/parseBattleRecord.go:149-163 | The table of the players `a + b` is the pointwise union of the tables of `a` and of `b`. Techs under a unit id shared across players accumulate in one inner map. |
| UnitTechLut.DuplicateTechCollapses | XMLParser/parseBattleRecord.go:156-159 | A single "Bot" unit 7 with techs 3, 3, 5 gives exactly {7: {3: "Tech", 5: "Tech"}}: the repeated pair is one entry. |
| DocumentStart.Index | XMLParser/parseBattleRecord.go:208 | The result is -1 exactly when the pattern does not occur. Otherwise the pattern occurs at the result and at no earlier index. |
| DocumentStart.IndexIsFirst | XMLParser/parseBattleRecord.go:208 | An occurrence with no occurrence before it is the index that `Index` returns. |
| DocumentStart.ExtractDocument | XMLParser/parseBattleRecord.go:207-212 | Extraction fails exactly when "<?xml" does not occur. Otherwise the result is a suffix of the input that begins with "<?xml", and no occurrence of the marker starts before it. |
| DocumentStart.ExtractIdempotent | XMLParser/parseBattleRecord.go:208-212 | Extracting from an extracted document returns that document unchanged. |
| DocumentStart.PrefixStripped | XMLParser/parseBattleRecord.go:207-212 | When the document starts with "<?xml" and no marker starts inside the prefix, extracting from the prefix plus the document returns exactly the document. |
| DocumentStart.PrefixWithoutAngleStripped | XMLParser/parseBattleRecord.go:207-212 | Any prefix that contains no '<' is stripped the same way. |

## Left out

- XML decoding (`xml.Unmarshal`, line 215) and the struct-tag binding of the record types (lines 12-48) are the behaviour of Go's `encoding/xml`. The record types are plain datatypes here, and the unmatched top-level fragments (`OtherFields`) are opaque byte strings.
- The round, action, shop and contraption types (lines 50-142) and the `RoundRecord` field of `PlayerRecord` (line 24) are not part of this model. No logic of the repository reads them.
- JSON rendering of the record and of the table (`saveParsedRecord`, lines 167-175 and 245) is library serialisation.
- The reflection-based diagnostic printer `printFields` (lines 177-199) and the dumps of players and unknown fragments in `main` (lines 219-232) only write to standard output.
- File reading, the skip-if-exists check and the file writes (lines 202 and 234-247) are I/O. The content of the file is a parameter of `ExtractDocument`.
- Go's `int` is 64 bits wide. The table only copies ids and tech data and does no arithmetic on them, so the model uses unbounded `int`.
- Go's nil slice and empty slice are both the empty `seq`. The `unit.Techs != nil` guard (line 154) therefore has no separate branch: both cases add nothing.
- hello.go declares an unrelated game-entity model and prints a greeting. It is not part of this model.
