/**
 * The unit/tech lookup table of XMLParser/parseBattleRecord.go (lines
 * 146-165): for every unit template of every player named "Bot", each of the
 * unit's acquired techs is entered under the unit's id with the placeholder
 * label "Tech".
 *
 * The specification side is the set of acquired (unit id, tech data) pairs,
 * `AcquiredPairs`, and the predicate `Represents`, which says that a two-level
 * map holds exactly those pairs, every value is the label and no inner map is
 * empty. `LutOf` is the one map that represents a set of pairs.
 */
module UnitTechLut {
  import opened BattleRecords

  /** Unit id -> tech data -> label. */
  type Lut = map<int, map<int, string>>

  /** The placeholder value stored for every (unit id, tech data) pair. */
  const Label: string := "Tech"

  /** The (unit id, tech data) pairs of the acquired techs of one unit. */
  function TechPairs(id: int, techs: seq<Tech>): set<(int, int)> {
    if techs == [] then {}
    else TechPairs(id, techs[..|techs| - 1]) + {(id, techs[|techs| - 1].techData)}
  }

  /** The pairs contributed by a sequence of unit templates. */
  function UnitsPairs(units: seq<UnitData>): set<(int, int)> {
    if units == [] then {}
    else
      var u := units[|units| - 1];
      UnitsPairs(units[..|units| - 1]) + TechPairs(u.id, u.techs)
  }

  /** The pairs contributed by a sequence of players: only "Bot" players count. */
  function PlayersPairs(players: seq<PlayerRecord>): set<(int, int)> {
    if players == [] then {}
    else
      var p := players[|players| - 1];
      PlayersPairs(players[..|players| - 1]) + (if IsBot(p) then UnitsPairs(p.data.unitDatas) else {})
  }

  /** Every (unit id, tech data) pair acquired by a unit of a "Bot" player. */
  function AcquiredPairs(rec: BattleRecord): set<(int, int)> {
    PlayersPairs(rec.playerRecords)
  }

  /** `d` is the data of one of the techs in `techs`. */
  ghost predicate HasTech(techs: seq<Tech>, d: int) {
    exists t :: t in techs && t.techData == d
  }

  /** Some unit in `units` has id `id` and acquired a tech with data `d`. */
  ghost predicate HasUnitTech(units: seq<UnitData>, id: int, d: int) {
    exists u :: u in units && u.id == id && HasTech(u.techs, d)
  }

  /** Some "Bot" player in `players` has a unit with id `id` that acquired tech `d`. */
  ghost predicate HasBotUnitTech(players: seq<PlayerRecord>, id: int, d: int) {
    exists p :: p in players && IsBot(p) && HasUnitTech(p.data.unitDatas, id, d)
  }

  lemma {:induction false} TechPairsMembers(id: int, techs: seq<Tech>, id': int, d: int)
    ensures (id', d) in TechPairs(id, techs) <==> id' == id && HasTech(techs, d)
  {
    if techs != [] {
      var init, last := techs[..|techs| - 1], techs[|techs| - 1];
      assert techs == init + [last];
      TechPairsMembers(id, init, id', d);
      if HasTech(techs, d) && last.techData != d {
        var t :| t in techs && t.techData == d;
        assert t in init;
      }
      if HasTech(init, d) {
        var t :| t in init && t.techData == d;
        assert t in techs;
      }
    }
  }

  lemma {:induction false} UnitsPairsMembers(units: seq<UnitData>, id: int, d: int)
    ensures (id, d) in UnitsPairs(units) <==> HasUnitTech(units, id, d)
  {
    if units != [] {
      var init, last := units[..|units| - 1], units[|units| - 1];
      assert units == init + [last];
      UnitsPairsMembers(init, id, d);
      TechPairsMembers(last.id, last.techs, id, d);
      if HasUnitTech(units, id, d) && !(last.id == id && HasTech(last.techs, d)) {
        var u :| u in units && u.id == id && HasTech(u.techs, d);
        assert u in init;
      }
      if HasUnitTech(init, id, d) {
        var u :| u in init && u.id == id && HasTech(u.techs, d);
        assert u in units;
      }
    }
  }

  lemma {:induction false} PlayersPairsMembers(players: seq<PlayerRecord>, id: int, d: int)
    ensures (id, d) in PlayersPairs(players) <==> HasBotUnitTech(players, id, d)
  {
    if players != [] {
      var init, last := players[..|players| - 1], players[|players| - 1];
      assert players == init + [last];
      PlayersPairsMembers(init, id, d);
      UnitsPairsMembers(last.data.unitDatas, id, d);
      if HasBotUnitTech(players, id, d) && !(IsBot(last) && HasUnitTech(last.data.unitDatas, id, d)) {
        var p :| p in players && IsBot(p) && HasUnitTech(p.data.unitDatas, id, d);
        assert p in init;
      }
      if HasBotUnitTech(init, id, d) {
        var p :| p in init && IsBot(p) && HasUnitTech(p.data.unitDatas, id, d);
        assert p in players;
      }
    }
  }

  /**
   * `lut` holds exactly the pairs of `s` (complete and sound), every stored
   * value is the label, and every unit id present has at least one tech.
   */
  ghost predicate Represents(lut: Lut, s: set<(int, int)>) {
    && (forall id, d | (id, d) in s :: id in lut && d in lut[id])
    && (forall id, d | id in lut && d in lut[id] :: (id, d) in s && lut[id][d] == Label)
    && (forall id | id in lut :: lut[id].Keys != {})
  }

  /** The unit ids that occur in a set of pairs. */
  function Ids(s: set<(int, int)>): set<int> {
    set pr | pr in s :: pr.0
  }

  /** The tech data that occur with unit id `id` in a set of pairs. */
  function TechsOf(s: set<(int, int)>, id: int): set<int> {
    set pr | pr in s && pr.0 == id :: pr.1
  }

  /** The reference lookup table for a set of pairs. */
  function LutOf(s: set<(int, int)>): Lut {
    map id | id in Ids(s) :: map d | d in TechsOf(s, id) :: Label
  }

  /** The reference table represents its set of pairs. */
  lemma LutOfRepresents(s: set<(int, int)>)
    ensures Represents(LutOf(s), s)
  {
    var lut := LutOf(s);
    forall id | id in lut ensures lut[id].Keys != {} {
      var pr :| pr in s && pr.0 == id;
      assert pr.1 in TechsOf(s, id);
      assert pr.1 in lut[id].Keys;
    }
    forall id, d | (id, d) in s ensures id in lut && d in lut[id] {
      assert (id, d).0 == id;
      assert id in Ids(s);
      assert d in TechsOf(s, id);
    }
  }

  /** The table BuildUnitTechLUT produces for a record, as a value. */
  function UnitTechLut(rec: BattleRecord): Lut {
    LutOf(AcquiredPairs(rec))
  }

  lemma SomeKey(m: map<int, string>) returns (k: int)
    requires m.Keys != {}
    ensures k in m
  {
    if forall x :: x !in m {
      assert false;
    }
    k :| k in m;
  }

  lemma RepresentedKey(a: Lut, b: Lut, s: set<(int, int)>, id: int)
    requires Represents(a, s) && Represents(b, s) && id in a
    ensures id in b
  {
    var d := SomeKey(a[id]);
    assert (id, d) in s;
  }

  lemma RepresentedInner(a: Lut, b: Lut, s: set<(int, int)>, id: int)
    requires Represents(a, s) && Represents(b, s) && id in a && id in b
    ensures a[id] == b[id]
  {
    forall d | d in a[id] ensures d in b[id] && a[id][d] == b[id][d] {
      assert (id, d) in s;
    }
    forall d | d in b[id] ensures d in a[id] {
      assert (id, d) in s;
    }
    assert a[id].Keys == b[id].Keys;
  }

  /** A set of pairs has only one representation: `Represents` pins the map down. */
  lemma RepresentsUnique(a: Lut, b: Lut, s: set<(int, int)>)
    requires Represents(a, s) && Represents(b, s)
    ensures a == b
  {
    forall id | id in a ensures id in b {
      RepresentedKey(a, b, s, id);
    }
    forall id | id in b ensures id in a {
      RepresentedKey(b, a, s, id);
    }
    forall id | id in a ensures a[id] == b[id] {
      RepresentedInner(a, b, s, id);
    }
    assert a.Keys == b.Keys;
  }

  /** Hence every table that represents `s` is the reference table of `s`. */
  lemma RepresentsLutOf(lut: Lut, s: set<(int, int)>)
    requires Represents(lut, s)
    ensures lut == LutOf(s)
  {
    LutOfRepresents(s);
    RepresentsUnique(lut, LutOf(s), s);
  }

  /**
   * One step of the inner loop: create the inner map for `id` if it is
   * missing, then set `d` to the label in it.
   */
  function Insert(lut: Lut, id: int, d: int): Lut {
    var inner := if id in lut then lut[id] else map[];
    lut[id := inner[d := Label]]
  }

  /**
   * Accumulation: an insertion adds `id` and `d` and keeps every entry that
   * was there; an existing inner map is extended, never replaced.
   */
  lemma InsertAccumulates(lut: Lut, id: int, d: int)
    ensures Insert(lut, id, d).Keys == lut.Keys + {id}
    ensures d in Insert(lut, id, d)[id] && Insert(lut, id, d)[id][d] == Label
    ensures forall k, e | k in lut && e in lut[k] && (k, e) != (id, d) :: e in Insert(lut, id, d)[k] && Insert(lut, id, d)[k][e] == lut[k][e]
    ensures forall k, e | k in Insert(lut, id, d) && e in Insert(lut, id, d)[k] && (k, e) != (id, d) :: k in lut && e in lut[k]
  {
  }

  /** Inserting a pair into a table that represents `s` represents `s + {(id, d)}`. */
  lemma InsertRepresents(lut: Lut, s: set<(int, int)>, id: int, d: int)
    requires Represents(lut, s)
    ensures Represents(Insert(lut, id, d), s + {(id, d)})
  {
    InsertAccumulates(lut, id, d);
  }

  /** Hence inserting into the reference table of `s` gives the reference table of `s + {(id, d)}`. */
  lemma LutOfInsert(s: set<(int, int)>, id: int, d: int)
    ensures Insert(LutOf(s), id, d) == LutOf(s + {(id, d)})
  {
    LutOfRepresents(s);
    InsertRepresents(LutOf(s), s, id, d);
    RepresentsLutOf(Insert(LutOf(s), id, d), s + {(id, d)});
  }

  lemma TechPairsSnoc(id: int, techs: seq<Tech>, t: Tech)
    ensures TechPairs(id, techs + [t]) == TechPairs(id, techs) + {(id, t.techData)}
  {
    assert (techs + [t])[..|techs|] == techs;
  }

  lemma UnitsPairsSnoc(units: seq<UnitData>, u: UnitData)
    ensures UnitsPairs(units + [u]) == UnitsPairs(units) + TechPairs(u.id, u.techs)
  {
    assert (units + [u])[..|units|] == units;
  }

  lemma PlayersPairsSnoc(players: seq<PlayerRecord>, p: PlayerRecord)
    ensures PlayersPairs(players + [p]) == PlayersPairs(players) + (if IsBot(p) then UnitsPairs(p.data.unitDatas) else {})
  {
    assert (players + [p])[..|players|] == players;
  }

  /**
   * The innermost loop of BuildUnitTechLUT: enter every acquired tech of the
   * unit with id `id` into `lut`, creating the unit's inner map on the first
   * tech only. `s` is the set of pairs `lut` held before.
   */
  method AddTechs(lut: Lut, id: int, techs: seq<Tech>, ghost s: set<(int, int)>) returns (r: Lut)
    requires lut == LutOf(s)
    ensures r == LutOf(s + TechPairs(id, techs))
  {
    r := lut;
    ghost var seen := s;
    var k := 0;
    while k < |techs|
      invariant 0 <= k <= |techs|
      invariant seen == s + TechPairs(id, techs[..k])
      invariant r == LutOf(seen)
    {
      var tech := techs[k];
      assert TechPairs(id, techs[..k + 1]) == TechPairs(id, techs[..k]) + {(id, tech.techData)} by {
        assert techs[..k + 1] == techs[..k] + [tech];
        TechPairsSnoc(id, techs[..k], tech);
      }
      ghost var before := r;
      if id !in r {
        r := r[id := map[]];
      }
      r := r[id := r[id][tech.techData := Label]];
      assert r == LutOf(seen + {(id, tech.techData)}) by {
        assert r == Insert(before, id, tech.techData);
        LutOfInsert(seen, id, tech.techData);
      }
      seen := seen + {(id, tech.techData)};
      k := k + 1;
    }
    assert techs[..k] == techs;
  }

  /**
   * The middle loop of BuildUnitTechLUT: enter the acquired techs of every
   * unit template of one "Bot" player. `s` is the set of pairs `lut` held before.
   */
  method AddUnits(lut: Lut, units: seq<UnitData>, ghost s: set<(int, int)>) returns (r: Lut)
    requires lut == LutOf(s)
    ensures r == LutOf(s + UnitsPairs(units))
  {
    r := lut;
    ghost var seen := s;
    var j := 0;
    while j < |units|
      invariant 0 <= j <= |units|
      invariant seen == s + UnitsPairs(units[..j])
      invariant r == LutOf(seen)
    {
      var unit := units[j];
      assert UnitsPairs(units[..j + 1]) == UnitsPairs(units[..j]) + TechPairs(unit.id, unit.techs) by {
        assert units[..j + 1] == units[..j] + [unit];
        UnitsPairsSnoc(units[..j], unit);
      }
      // A nil and an empty Techs slice are both [] here; neither adds a key.
      r := AddTechs(r, unit.id, unit.techs, seen);
      seen := seen + TechPairs(unit.id, unit.techs);
      j := j + 1;
    }
    assert units[..j] == units;
  }

  /**
   * BuildUnitTechLUT: skip every player not named "Bot" and enter the techs
   * of the units of the others.
   */
  method BuildUnitTechLut(rec: BattleRecord) returns (lut: Lut)
    ensures Represents(lut, AcquiredPairs(rec))
    ensures lut == UnitTechLut(rec)
  {
    var players := rec.playerRecords;
    lut := map[];
    ghost var seen: set<(int, int)> := {};
    var i := 0;
    while i < |players|
      invariant 0 <= i <= |players|
      invariant seen == PlayersPairs(players[..i])
      invariant lut == LutOf(seen)
    {
      var player := players[i];
      assert PlayersPairs(players[..i + 1]) == seen + (if IsBot(player) then UnitsPairs(player.data.unitDatas) else {}) by {
        assert players[..i + 1] == players[..i] + [player];
        PlayersPairsSnoc(players[..i], player);
      }
      if player.name != BotName {
        i := i + 1;
        continue;
      }
      lut := AddUnits(lut, player.data.unitDatas, seen);
      seen := seen + UnitsPairs(player.data.unitDatas);
      i := i + 1;
    }
    assert players[..i] == players;
    LutOfRepresents(seen);
  }

  /*
   * Properties of the lookup table, stated on the reference `UnitTechLut`
   * that BuildUnitTechLut is proved to compute.
   */

  lemma {:induction false} PlayersPairsAppend(a: seq<PlayerRecord>, b: seq<PlayerRecord>)
    ensures PlayersPairs(a + b) == PlayersPairs(a) + PlayersPairs(b)
  {
    if b == [] {
      assert a + b == a;
    } else {
      var init, last := b[..|b| - 1], b[|b| - 1];
      assert b == init + [last];
      assert a + b == (a + init) + [last];
      PlayersPairsAppend(a, init);
      PlayersPairsSnoc(a + init, last);
      PlayersPairsSnoc(init, last);
    }
  }

  /**
   * Completeness and soundness: a pair is in the table exactly when some
   * "Bot" player has a unit with that id that acquired a tech with that data,
   * and the value stored for it is the label.
   */
  lemma UnitTechLutEntries(rec: BattleRecord, id: int, d: int)
    ensures (id in UnitTechLut(rec) && d in UnitTechLut(rec)[id]) <==> HasBotUnitTech(rec.playerRecords, id, d)
    ensures id in UnitTechLut(rec) && d in UnitTechLut(rec)[id] ==> UnitTechLut(rec)[id][d] == Label
  {
    LutOfRepresents(AcquiredPairs(rec));
    PlayersPairsMembers(rec.playerRecords, id, d);
  }

  /** Completeness, one tech at a time. */
  lemma UnitTechLutComplete(rec: BattleRecord, p: PlayerRecord, u: UnitData, t: Tech)
    requires p in rec.playerRecords && IsBot(p) && u in p.data.unitDatas && t in u.techs
    ensures u.id in UnitTechLut(rec) && t.techData in UnitTechLut(rec)[u.id]
    ensures UnitTechLut(rec)[u.id][t.techData] == Label
  {
    assert HasTech(u.techs, t.techData);
    assert HasUnitTech(p.data.unitDatas, u.id, t.techData);
    UnitTechLutEntries(rec, u.id, t.techData);
  }

  /** No inner map is empty: a unit id is present only with at least one tech. */
  lemma UnitTechLutNoEmptyInner(rec: BattleRecord, id: int)
    requires id in UnitTechLut(rec)
    ensures UnitTechLut(rec)[id] != map[]
  {
    LutOfRepresents(AcquiredPairs(rec));
    var d := SomeKey(UnitTechLut(rec)[id]);
  }

  /**
   * A unit id whose units (of "Bot" players) all have no acquired techs gets
   * no key, whatever their unlocked techs.
   */
  lemma TechlessUnitsAddNoKey(rec: BattleRecord, id: int)
    requires forall p, u | p in rec.playerRecords && IsBot(p) && u in p.data.unitDatas && u.id == id :: u.techs == []
    ensures id !in UnitTechLut(rec)
  {
    if id in UnitTechLut(rec) {
      LutOfRepresents(AcquiredPairs(rec));
      var d := SomeKey(UnitTechLut(rec)[id]);
      UnitTechLutEntries(rec, id, d);
    }
  }

  /** A record without a "Bot" player yields the empty table. */
  lemma {:induction false} NoBotYieldsEmpty(rec: BattleRecord)
    requires forall p | p in rec.playerRecords :: !IsBot(p)
    ensures UnitTechLut(rec) == map[]
  {
    var ps := rec.playerRecords;
    forall pr | pr in AcquiredPairs(rec) ensures false {
      PlayersPairsMembers(ps, pr.0, pr.1);
    }
    assert AcquiredPairs(rec) == {};
    assert Ids({}) == {};
  }

  /** Players not named "Bot" contribute nothing, wherever they stand. */
  lemma NonBotPlayerIgnored(rec: BattleRecord, i: nat, p: PlayerRecord)
    requires i <= |rec.playerRecords| && !IsBot(p)
    ensures UnitTechLut(rec.(playerRecords := rec.playerRecords[..i] + [p] + rec.playerRecords[i..])) == UnitTechLut(rec)
  {
    var ps := rec.playerRecords;
    PlayersPairsAppend(ps[..i] + [p], ps[i..]);
    PlayersPairsSnoc(ps[..i], p);
    PlayersPairsAppend(ps[..i], ps[i..]);
    assert ps[..i] + ps[i..] == ps;
    assert PlayersPairs(ps[..i] + [p] + ps[i..]) == PlayersPairs(ps);
  }

  /** The record with every unit's unlocked techs removed. */
  function ClearUnlocked(rec: BattleRecord): BattleRecord {
    rec.(playerRecords := ClearPlayers(rec.playerRecords))
  }

  function ClearPlayers(ps: seq<PlayerRecord>): (r: seq<PlayerRecord>)
    ensures |r| == |ps|
  {
    seq(|ps|, i requires 0 <= i < |ps| => ps[i].(data := ps[i].data.(unitDatas := ClearUnits(ps[i].data.unitDatas))))
  }

  function ClearUnits(us: seq<UnitData>): (r: seq<UnitData>)
    ensures |r| == |us|
  {
    seq(|us|, i requires 0 <= i < |us| => us[i].(unlockedTech := []))
  }

  lemma {:induction false} UnitsPairsClear(us: seq<UnitData>)
    ensures UnitsPairs(ClearUnits(us)) == UnitsPairs(us)
  {
    if us != [] {
      var n := |us|;
      assert ClearUnits(us)[..n - 1] == ClearUnits(us[..n - 1]);
      UnitsPairsClear(us[..n - 1]);
    }
  }

  lemma {:induction false} PlayersPairsClear(ps: seq<PlayerRecord>)
    ensures PlayersPairs(ClearPlayers(ps)) == PlayersPairs(ps)
  {
    if ps != [] {
      var n := |ps|;
      assert ClearPlayers(ps)[..n - 1] == ClearPlayers(ps[..n - 1]);
      PlayersPairsClear(ps[..n - 1]);
      UnitsPairsClear(ps[n - 1].data.unitDatas);
    }
  }

  /** Unlocked techs are never read: records that differ only there give the same table. */
  lemma UnlockedTechIgnored(a: BattleRecord, b: BattleRecord)
    requires ClearUnlocked(a) == ClearUnlocked(b)
    ensures UnitTechLut(a) == UnitTechLut(b)
  {
    PlayersPairsClear(a.playerRecords);
    PlayersPairsClear(b.playerRecords);
  }

  /** Pointwise union of two tables: the inner maps of a shared unit id are merged. */
  function Merge(x: Lut, y: Lut): Lut {
    map id | id in x.Keys + y.Keys :: (if id in x then x[id] else map[]) + (if id in y then y[id] else map[])
  }

  lemma MergeRepresents(x: Lut, y: Lut, sx: set<(int, int)>, sy: set<(int, int)>)
    requires Represents(x, sx) && Represents(y, sy)
    ensures Represents(Merge(x, y), sx + sy)
  {
    var m := Merge(x, y);
    forall id | id in m ensures m[id].Keys != {} {
      if id in x {
        var d := SomeKey(x[id]);
        assert d in m[id];
      } else {
        var d := SomeKey(y[id]);
        assert d in m[id];
      }
    }
  }

  /**
   * Accumulation across players: the table of `a + b` merges the tables of
   * `a` and of `b`; techs under a shared unit id are combined, not replaced.
   */
  lemma UnitTechLutConcat(rec: BattleRecord, a: seq<PlayerRecord>, b: seq<PlayerRecord>)
    requires rec.playerRecords == a + b
    ensures UnitTechLut(rec) == Merge(UnitTechLut(rec.(playerRecords := a)), UnitTechLut(rec.(playerRecords := b)))
  {
    var sa, sb := PlayersPairs(a), PlayersPairs(b);
    PlayersPairsAppend(a, b);
    LutOfRepresents(sa);
    LutOfRepresents(sb);
    MergeRepresents(LutOf(sa), LutOf(sb), sa, sb);
    RepresentsLutOf(Merge(LutOf(sa), LutOf(sb)), sa + sb);
  }

  /**
   * A repeated (unit id, tech data) pair collapses to one entry: a single
   * "Bot" unit 7 with techs 3, 3, 5 gives {7: {3: "Tech", 5: "Tech"}}.
   */
  lemma DuplicateTechCollapses(rec: BattleRecord, unlocked: seq<Tech>)
    requires |rec.playerRecords| == 1 && IsBot(rec.playerRecords[0])
    requires rec.playerRecords[0].data.unitDatas == [UnitData(7, [Tech(3), Tech(3), Tech(5)], unlocked)]
    ensures UnitTechLut(rec) == map[7 := map[3 := Label, 5 := Label]]
  {
    var ps := rec.playerRecords;
    var us := ps[0].data.unitDatas;
    var techs := [Tech(3), Tech(3), Tech(5)];
    assert TechPairs(7, techs) == {(7, 3), (7, 5)} by {
      assert techs[..2][..1] == [Tech(3)];
      assert techs[..2] == [Tech(3), Tech(3)];
      assert [Tech(3)][..0] == [];
    }
    assert UnitsPairs(us) == {(7, 3), (7, 5)} by {
      assert us[..0] == [];
    }
    assert AcquiredPairs(rec) == {(7, 3), (7, 5)} by {
      assert ps == [] + [ps[0]];
      PlayersPairsSnoc([], ps[0]);
    }
    RepresentsLutOf(map[7 := map[3 := Label, 5 := Label]], {(7, 3), (7, 5)});
  }

}
