/**
 * The decoded battle-record tree that the unit/tech lookup table is built
 * from (XMLParser/parseBattleRecord.go, lines 12-48). The XML binding given by
 * the Go struct tags is not modelled: these are the plain values the decoder
 * produces. Go's `int` fields become `int`; a Go slice becomes a `seq`, so a
 * nil slice and an empty slice are both `[]`.
 */
module BattleRecords {

  /** One raw byte of an XML fragment the schema does not name. */
  type Byte = bv8

  /** An acquired or unlocked technology; `techData` is the `data` attribute. */
  datatype Tech = Tech(techData: int)

  /** A unit template of a player, with its acquired and unlocked techs. */
  datatype UnitData = UnitData(id: int, techs: seq<Tech>, unlockedTech: seq<Tech>)

  /** The per-player state block (`data` element). */
  datatype Data = Data(
    reactorCore: int,
    maxReactorCore: int,
    maxRoundSupply: int,
    firstRoundSupply: int,
    roundSupplyIncreaseValue: int,
    team: int,
    isLeader: bool,
    kind: string,
    unitDatas: seq<UnitData>)

  /** One player of the match; the per-round records are not part of this model. */
  datatype PlayerRecord = PlayerRecord(name: string, seed: int, ad: int, data: Data)

  /** The root: players in document order, and the unmatched top-level fragments. */
  datatype BattleRecord = BattleRecord(playerRecords: seq<PlayerRecord>, otherFields: seq<seq<Byte>>)

  /** The name that marks the computer player whose units define the lookup table. */
  const BotName: string := "Bot"

  predicate IsBot(p: PlayerRecord) {
    p.name == BotName
  }

}
