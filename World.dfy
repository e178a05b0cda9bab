/** The static arcade world: grid size, tile map, start position and the
    stationary machines ("static NPCs"), with the facts about them that the
    movement and dialogue logic relies on. */
module World {

  /** The five tile kinds; the numeric codes of the map are their enum values. */
  datatype TileType = Floor | Wall | CarpetV | CarpetH | Exit

  datatype Direction = Up | Down | Left | Right

  /** `x` is the column, `y` the row. */
  datatype Position = Position(x: int, y: int)

  /** A character of the map: id, cell, script of dialogue lines and glyph. */
  datatype NpcData = NpcData(id: int, position: Position, message: seq<string>, sprite: string)

  const MapWidth: int := 20
  const MapHeight: int := 15

  const PlayerStartPosition: Position := Position(10, 12)

  /** Decodes a numeric tile code as the enum does: 0 Floor, 1 Wall,
      2 vertical carpet, 3 horizontal carpet, 4 Exit. */
  function TileFromCode(code: int): (t: TileType)
    requires 0 <= code <= 4
    ensures t == [Floor, Wall, CarpetV, CarpetH, Exit][code]
  {
    match code
    case 0 => Floor
    case 1 => Wall
    case 2 => CarpetV
    case 3 => CarpetH
    case _ => Exit
  }

  /** The map, row by row (indexed `[y][x]`), in tile codes. */
  const MapCodes: seq<seq<int>> := [
    [1, 1, 1, 1, 1, 1, 1, 1, 1, 1, 1, 1, 1, 1, 1, 1, 1, 1, 1, 1],
    [1, 0, 0, 0, 0, 0, 0, 0, 0, 2, 0, 0, 0, 0, 0, 0, 0, 0, 0, 1],
    [1, 0, 0, 0, 0, 0, 0, 0, 0, 2, 0, 0, 0, 0, 0, 0, 0, 0, 0, 1],
    [1, 0, 0, 1, 1, 0, 0, 1, 1, 2, 1, 1, 0, 0, 1, 1, 0, 0, 0, 1],
    [1, 0, 0, 1, 1, 0, 0, 1, 1, 2, 1, 1, 0, 0, 1, 1, 0, 0, 0, 1],
    [1, 0, 0, 0, 0, 0, 0, 0, 0, 2, 0, 0, 0, 0, 0, 0, 0, 0, 0, 1],
    [1, 0, 0, 0, 0, 0, 0, 0, 0, 2, 0, 0, 0, 0, 0, 0, 0, 0, 0, 1],
    [1, 3, 3, 3, 3, 3, 3, 3, 3, 2, 3, 3, 3, 3, 3, 3, 3, 3, 3, 4],
    [1, 0, 0, 0, 0, 0, 0, 0, 0, 2, 0, 0, 0, 0, 0, 0, 0, 0, 0, 1],
    [1, 0, 0, 0, 0, 0, 0, 0, 0, 2, 0, 0, 0, 0, 0, 0, 0, 0, 0, 1],
    [1, 0, 0, 1, 1, 0, 0, 1, 1, 2, 1, 1, 0, 0, 1, 1, 0, 0, 0, 1],
    [1, 0, 0, 1, 1, 0, 0, 1, 1, 2, 1, 1, 0, 0, 1, 1, 0, 0, 0, 1],
    [1, 0, 0, 0, 0, 0, 0, 0, 0, 2, 0, 0, 0, 0, 0, 0, 0, 0, 0, 1],
    [1, 0, 0, 0, 0, 0, 0, 0, 0, 2, 0, 0, 0, 0, 0, 0, 0, 0, 0, 1],
    [1, 1, 1, 1, 1, 1, 1, 1, 1, 1, 1, 1, 1, 1, 1, 1, 1, 1, 1, 1]
  ]

  const Npcs: seq<NpcData> := [
    NpcData(1, Position(3, 3), ["'Pixel Racer 3D'へようこそ！", "ハイスコア: 999,999... おっと、故障中のようだ。"], "👾"),
    NpcData(2, Position(7, 3), ["'Starship Guardian' が起動！", "地球を守る最後の希望は君だ！"], "🚀"),
    NpcData(3, Position(12, 3), ["ここはクレーンゲームコーナーです。", "景品: ふわふわのアルパカ人形。取れそうで取れない絶妙なバランス。"], "🧸"),
    NpcData(4, Position(16, 3), ["音楽ゲーム 'Beat Master'！", "新曲が追加されました！全国ランキングに挑戦しよう！"], "🎵"),
    NpcData(5, Position(3, 10), ["レトロゲームコーナー。", "'Galactic Invaders' は今でも名作だ。"], "🕹️"),
    NpcData(6, Position(7, 10), ["これは両替機です。", "ガチャン！コインの音が鳴り響く。"], "💰"),
    NpcData(7, Position(12, 10), ["プリクラ機 'KiraKira Eyes'。", "最新の美肌モードとデカ目効果を搭載！"], "📸"),
    NpcData(8, Position(16, 10), ["自動販売機だ。", "冷たい飲み物で一息つこう。"], "🥤"),
    NpcData(9, Position(9, 6), ["インフォメーションデスク。", "何かお困りですか？...誰もいないようだ。"], "ℹ️")
  ]

  /** Declared beside the machines; the game component never reads it. */
  const MovingNpcs: seq<NpcData> := [
    NpcData(100, Position(5, 7), ["..."], "P"),
    NpcData(101, Position(13, 3), ["..."], "P")
  ]

  predicate InBounds(pos: Position) {
    0 <= pos.x < MapWidth && 0 <= pos.y < MapHeight
  }

  /** The tile under an in-bounds cell (`MAP_LAYOUT[y][x]`). */
  function TileAt(pos: Position): TileType
    requires InBounds(pos)
  {
    MapShape();
    MapCodesInRange(pos.y, pos.x);
    TileFromCode(MapCodes[pos.y][pos.x])
  }

  /** The map has `MapHeight` rows of `MapWidth` tiles each. */
  lemma MapShape()
    ensures |MapCodes| == MapHeight
    ensures forall y :: 0 <= y < MapHeight ==> |MapCodes[y]| == MapWidth
  {
  }

  /** Every entry of the map is a valid tile code. */
  lemma MapCodesInRange(y: int, x: int)
    requires 0 <= y < MapHeight && 0 <= x < MapWidth
    ensures |MapCodes| == MapHeight && |MapCodes[y]| == MapWidth
    ensures 0 <= MapCodes[y][x] <= 4
  {
    MapShape();
  }

  /** Rows 0 and 14 and column 0 are wall; column 19 is wall except row 7. */
  lemma BorderIsWall()
    ensures forall x :: 0 <= x < MapWidth ==> TileAt(Position(x, 0)) == Wall
    ensures forall x :: 0 <= x < MapWidth ==> TileAt(Position(x, 14)) == Wall
    ensures forall y :: 0 <= y < MapHeight ==> TileAt(Position(0, y)) == Wall
    ensures forall y :: 0 <= y < MapHeight && y != 7 ==> TileAt(Position(19, y)) == Wall
  {
    assert MapCodes[0] == MapCodes[14] == seq(MapWidth, _ => 1);
  }

  /** The only exit of the map is the east door at (19, 7). */
  lemma OnlyExit(pos: Position)
    requires InBounds(pos)
    ensures TileAt(pos) == Exit <==> pos == Position(19, 7)
  {
  }

  /** The vertical carpet runs down column 9 and the horizontal one along
      row 7, crossing at (9, 7), which is vertical carpet. */
  lemma Carpets()
    ensures forall y :: 1 <= y < MapHeight - 1 ==> TileAt(Position(9, y)) == CarpetV
    ensures forall x :: 1 <= x < MapWidth - 1 && x != 9 ==> TileAt(Position(x, 7)) == CarpetH
  {
  }

  /** The player starts in bounds on a floor tile that no machine occupies. */
  lemma StartIsFreeFloor()
    ensures InBounds(PlayerStartPosition) && TileAt(PlayerStartPosition) == Floor
    ensures forall i :: 0 <= i < |Npcs| ==> Npcs[i].position != PlayerStartPosition
  {
  }

  /** The nine machines have distinct ids and distinct in-bounds cells. */
  lemma NpcsWellFormed()
    ensures |Npcs| == 9
    ensures forall i, j :: 0 <= i < j < |Npcs| ==> Npcs[i].id != Npcs[j].id && Npcs[i].position != Npcs[j].position
    ensures forall i :: 0 <= i < |Npcs| ==> InBounds(Npcs[i].position)
  {
  }

  /** Every machine's script has exactly two lines. */
  lemma ScriptsHaveTwoLines()
    ensures forall i :: 0 <= i < |Npcs| ==> |Npcs[i].message| == 2
  {
  }

  /** The roaming customers' ids never clash with a machine's id. */
  lemma MovingIdsDisjoint()
    ensures forall i, j :: 0 <= i < |MovingNpcs| && 0 <= j < |Npcs| ==> MovingNpcs[i].id != Npcs[j].id
  {
  }

  /** Machines 1, 2, 5 and 6 stand on wall tiles; the other five do not. */
  lemma MachinesOnWalls()
    ensures forall i :: 0 <= i < |Npcs| ==>
      InBounds(Npcs[i].position) && (TileAt(Npcs[i].position) == Wall <==> Npcs[i].id in {1, 2, 5, 6})
  {
  }
}
