/**
 * The maze grids of CgSceneMaze: a value grid (what is drawn and eaten:
 * roads, feeds, power feeds, fruit, walls) and an attribute grid (how
 * actors may move: road, slow, one-way, wall), both BG_WIDTH columns by
 * BG_HEIGHT rows, indexed [column, row] with row 0 at the bottom.
 */
module Grid {
  import opened Wrappers
  import opened Direction
  import opened Position

  datatype Tile = Road | Feed | PowerFeed | Fruit | Slow | Oneway | Gate | Wall {

    /** The raw value the program stores for the tile. */
    function Raw(): int {
      match this
      case Road => 0x00
      case Feed => 0x01
      case PowerFeed => 0x02
      case Fruit => 0x03
      case Slow => 0xFC
      case Oneway => 0xFD
      case Gate => 0xFE
      case Wall => 0xFF
    }
  }

  /** The failable initialiser EnMazeTile(value): defined exactly on the eight raw values. */
  function TileFromRaw(v: int): (r: Option<Tile>)
    ensures r.Some? <==> v in {0x00, 0x01, 0x02, 0x03, 0xFC, 0xFD, 0xFE, 0xFF}
    ensures r.Some? ==> r.value.Raw() == v
  {
    match v
    case 0x00 => Some(Road)
    case 0x01 => Some(Feed)
    case 0x02 => Some(PowerFeed)
    case 0x03 => Some(Fruit)
    case 0xFC => Some(Slow)
    case 0xFD => Some(Oneway)
    case 0xFE => Some(Gate)
    case 0xFF => Some(Wall)
    case _ => Option.None
  }

  lemma TileRawRoundTrip(t: Tile)
    ensures TileFromRaw(t.Raw()) == Some(t)
  {
  }

  /** The value a maze-source character writes: '_' and ' ' road, '1' and '2' feed, '3' power feed, else wall. */
  function ValueOf(c: char): (r: Tile)
    ensures r in {Road, Feed, PowerFeed, Wall}
    ensures r in {Feed, PowerFeed} <==> IsFeedChar(c)
    ensures r == Wall <==> AttributeOf(c) == Wall
  {
    match c
    case '_' => Road
    case ' ' => Road
    case '1' => Feed
    case '2' => Feed
    case '3' => PowerFeed
    case _ => Wall
  }

  /** The attribute a maze-source character writes: '_' slow, '2' one-way, feeds and roads road, else wall. */
  function AttributeOf(c: char): (r: Tile)
    ensures r in {Slow, Road, Oneway, Wall}
    ensures IsFeedChar(c) ==> r != Wall && r != Slow
  {
    match c
    case '_' => Slow
    case ' ' => Road
    case '1' => Road
    case '2' => Oneway
    case '3' => Road
    case _ => Wall
  }

  /** Characters that put something to eat on the maze. */
  predicate IsFeedChar(c: char) {
    c == '1' || c == '2' || c == '3'
  }

  /** The grid row that line i of a maze source is written to: the first line goes to row BG_HEIGHT-4. */
  function RowOfLine(i: int): int {
    BG_HEIGHT - 4 - i
  }

  /** Feeds in one line of a maze source. */
  function CountFeedsInLine(s: string): (r: nat)
    ensures r <= |s|
    decreases |s|
  {
    if |s| == 0 then 0
    else CountFeedsInLine(s[..|s| - 1]) + (if IsFeedChar(s[|s| - 1]) then 1 else 0)
  }

  /** Feeds in a whole maze source. */
  function CountFeeds(src: seq<string>): nat
    decreases |src|
  {
    if |src| == 0 then 0
    else CountFeeds(src[..|src| - 1]) + CountFeedsInLine(src[|src| - 1])
  }

  /** A line holds no feed exactly when none of its characters is a feed character. */
  lemma {:induction false} NoFeedsInLine(s: string)
    ensures CountFeedsInLine(s) == 0 <==> forall j :: 0 <= j < |s| ==> !IsFeedChar(s[j])
    decreases |s|
  {
    if |s| > 0 {
      var t := s[..|s| - 1];
      NoFeedsInLine(t);
      assert forall j :: 0 <= j < |t| ==> t[j] == s[j];
    }
  }

  /** A maze source holds no feed exactly when no line holds a feed character. */
  lemma {:induction false} NoFeeds(src: seq<string>)
    ensures CountFeeds(src) == 0 <==> forall i, j :: 0 <= i < |src| && 0 <= j < |src[i]| ==> !IsFeedChar(src[i][j])
    decreases |src|
  {
    if |src| > 0 {
      var t := src[..|src| - 1];
      NoFeeds(t);
      NoFeedsInLine(src[|src| - 1]);
      assert forall i :: 0 <= i < |t| ==> t[i] == src[i];
    }
  }

  datatype MazePosition = MazePosition(column: int, row: int)

  /** The power feeds of one line, written to grid row row, left to right. */
  function PowerFeedsInLine(s: string, row: int): seq<MazePosition>
    decreases |s|
  {
    if |s| == 0 then []
    else PowerFeedsInLine(s[..|s| - 1], row) + (if s[|s| - 1] == '3' then [MazePosition(|s| - 1, row)] else [])
  }

  /** The power feeds of a maze source, line by line. */
  function PowerFeedsOf(src: seq<string>): seq<MazePosition>
    decreases |src|
  {
    if |src| == 0 then []
    else PowerFeedsOf(src[..|src| - 1]) + PowerFeedsInLine(src[|src| - 1], RowOfLine(|src| - 1))
  }

  /** The character a maze source writes into cell (column, row), if any. */
  function CharAt(src: seq<string>, column: int, row: int): (r: Option<char>)
    ensures r.Some? <==> 0 <= RowOfLine(row) < |src| && 0 <= column < |src[RowOfLine(row)]|
  {
    var i := BG_HEIGHT - 4 - row;
    if 0 <= i < |src| && 0 <= column < |src[i]| then Some(src[i][column]) else Option.None
  }

  /** Every listed power feed sits on a '3' of the source, and every '3' is listed. */
  lemma {:induction false} PowerFeedsAreThrees(src: seq<string>, column: int, row: int)
    ensures MazePosition(column, row) in PowerFeedsOf(src) <==> CharAt(src, column, row) == Some('3')
    decreases |src|
  {
    if |src| > 0 {
      var n := |src| - 1;
      PowerFeedsAreThrees(src[..n], column, row);
      PowerFeedsInLineAreThrees(src[n], RowOfLine(n), column, row);
      assert forall i :: 0 <= i < n ==> src[..n][i] == src[i];
    }
  }

  lemma {:induction false} PowerFeedsInLineAreThrees(s: string, lineRow: int, column: int, row: int)
    ensures MazePosition(column, row) in PowerFeedsInLine(s, lineRow)
            <==> row == lineRow && 0 <= column < |s| && s[column] == '3'
    decreases |s|
  {
    if |s| > 0 {
      var n := |s| - 1;
      PowerFeedsInLineAreThrees(s[..n], lineRow, column, row);
      assert forall i :: 0 <= i < n ==> s[..n][i] == s[i];
    }
  }

  /** Column lookups wrap through the tunnel: one column past either edge reads the opposite edge. */
  function WrapColumn(column: int): (r: int)
    ensures 0 <= r < BG_WIDTH
    ensures -1 <= column <= BG_WIDTH ==> r == column % BG_WIDTH
    ensures 0 <= column < BG_WIDTH ==> r == column
  {
    if column < 0 then BG_WIDTH - 1 else if column >= BG_WIDTH then 0 else column
  }

  /** Offset of position p along direction d: positive once p is past its tile's centre towards d. */
  function Along(p: Pos, d: Dir): int {
    HorizontalDelta(d) * p.dx + VerticalDelta(d) * p.dy
  }

  class CgMazeGrid {
    const values: array2<Tile>
    const attributes: array2<Tile>
    var powerFeeds: seq<MazePosition>

    predicate Valid()
      reads this
    {
      values.Length0 == BG_WIDTH && values.Length1 == BG_HEIGHT
      && attributes.Length0 == BG_WIDTH && attributes.Length1 == BG_HEIGHT
      && values != attributes
    }

    /** Both grids start as road everywhere. */
    constructor()
      ensures Valid() && fresh(values) && fresh(attributes) && powerFeeds == []
      ensures forall c, r :: 0 <= c < BG_WIDTH && 0 <= r < BG_HEIGHT ==> values[c, r] == Road && attributes[c, r] == Road
    {
      values := new Tile[BG_WIDTH, BG_HEIGHT]((c, r) => Road);
      attributes := new Tile[BG_WIDTH, BG_HEIGHT]((c, r) => Road);
      powerFeeds := [];
    }

    /** The value at (column, row); rows outside the grid read as Wall. */
    function GetTile(column: int, row: int): (r: Tile)
      requires Valid()
      reads this, values
      ensures 0 <= row < BG_HEIGHT ==> r == values[WrapColumn(column), row]
      ensures !(0 <= row < BG_HEIGHT) ==> r == Wall
    {
      if !(0 <= row < BG_HEIGHT) then Wall
      else if column < 0 then values[BG_WIDTH - 1, row]
      else if column >= BG_WIDTH then values[0, row]
      else values[column, row]
    }

    /** The attribute at (column, row); rows outside the grid read as Wall. */
    function AttributeAt(column: int, row: int): (r: Tile)
      requires Valid()
      reads this, attributes
      ensures 0 <= row < BG_HEIGHT ==> r == attributes[WrapColumn(column), row]
      ensures !(0 <= row < BG_HEIGHT) ==> r == Wall
    {
      if !(0 <= row < BG_HEIGHT) then Wall
      else if column < 0 then attributes[BG_WIDTH - 1, row]
      else if column >= BG_WIDTH then attributes[0, row]
      else attributes[column, row]
    }

    /**
     * The attribute an actor at p meets when heading d: the next tile once it
     * is at or past its own tile's centre towards d, its own tile before
     * that (and for Stop and None).
     */
    function GetTileAttribute(d: Dir, p: Pos): (r: Tile)
      requires Valid()
      reads this, attributes
      ensures d.IsHeading() && Along(p, d) >= 0 ==>
                r == AttributeAt(p.column + HorizontalDelta(d), p.row + VerticalDelta(d))
      ensures !d.IsHeading() || Along(p, d) < 0 ==> r == AttributeAt(p.column, p.row)
    {
      match d
      case Left => if p.dx <= 0 then AttributeAt(p.column - 1, p.row) else AttributeAt(p.column, p.row)
      case Right => if p.dx < 0 then AttributeAt(p.column, p.row) else AttributeAt(p.column + 1, p.row)
      case Up => if p.dy < 0 then AttributeAt(p.column, p.row) else AttributeAt(p.column, p.row + 1)
      case Down => if p.dy <= 0 then AttributeAt(p.column, p.row - 1) else AttributeAt(p.column, p.row)
      case _ => AttributeAt(p.column, p.row)
    }

    method SetTile(column: int, row: int, value: Tile)
      requires Valid()
      requires 0 <= column < BG_WIDTH && 0 <= row < BG_HEIGHT
      modifies values
      ensures values[column, row] == value
      ensures forall c, r :: 0 <= c < BG_WIDTH && 0 <= r < BG_HEIGHT && (c, r) != (column, row) ==>
                values[c, r] == old(values[c, r])
    {
      values[column, row] := value;
    }

    /**
     * Load a maze source: line i goes to row BG_HEIGHT-4-i, character j to
     * column j; cells the source does not reach keep what they held. Returns
     * the number of feeds and power feeds, and records the power feeds.
     */
    method SetMazeValuesAndAttributes(src: seq<string>) returns (numberOfFeeds: int)
      requires Valid()
      requires |src| <= BG_HEIGHT - 3
      requires forall i :: 0 <= i < |src| ==> |src[i]| <= BG_WIDTH
      modifies this, values, attributes
      ensures Valid()
      ensures numberOfFeeds == CountFeeds(src)
      ensures powerFeeds == PowerFeedsOf(src)
      ensures forall c, r :: 0 <= c < BG_WIDTH && 0 <= r < BG_HEIGHT ==>
                values[c, r] == (match CharAt(src, c, r) case Some(ch) => ValueOf(ch) case _ => old(values[c, r]))
      ensures forall c, r :: 0 <= c < BG_WIDTH && 0 <= r < BG_HEIGHT ==>
                attributes[c, r] == (match CharAt(src, c, r) case Some(ch) => AttributeOf(ch) case _ => old(attributes[c, r]))
    {
      var row := BG_HEIGHT - 4;
      numberOfFeeds := 0;
      powerFeeds := [];
      var i := 0;
      while i < |src|
        invariant 0 <= i <= |src|
        invariant row == RowOfLine(i)
        invariant numberOfFeeds == CountFeeds(src[..i])
        invariant powerFeeds == PowerFeedsOf(src[..i])
        invariant forall c, r :: 0 <= c < BG_WIDTH && 0 <= r < BG_HEIGHT ==>
                    values[c, r] == (match CharAt(src[..i], c, r) case Some(ch) => ValueOf(ch) case _ => old(values[c, r]))
        invariant forall c, r :: 0 <= c < BG_WIDTH && 0 <= r < BG_HEIGHT ==>
                    attributes[c, r] == (match CharAt(src[..i], c, r) case Some(ch) => AttributeOf(ch) case _ => old(attributes[c, r]))
      {
        var feedsInLine := SetLine(src[i], row);
        numberOfFeeds := numberOfFeeds + feedsInLine;
        forall c, r | 0 <= c < BG_WIDTH && 0 <= r < BG_HEIGHT
          ensures CharAt(src[..i + 1], c, r) ==
                    if r == row && c < |src[i]| then Some(src[i][c]) else CharAt(src[..i], c, r)
        {
          CharAtExtendsSource(src, i, c, r);
        }
        assert src[..i + 1][..i] == src[..i];
        row := row - 1;
        i := i + 1;
      }
      assert src[..|src|] == src;
    }

    /** One line of a maze source, written into grid row row. */
    method SetLine(str: string, row: int) returns (feeds: int)
      requires Valid()
      requires 0 <= row < BG_HEIGHT && |str| <= BG_WIDTH
      modifies this, values, attributes
      ensures Valid()
      ensures feeds == CountFeedsInLine(str)
      ensures powerFeeds == old(powerFeeds) + PowerFeedsInLine(str, row)
      ensures forall c, r :: 0 <= c < BG_WIDTH && 0 <= r < BG_HEIGHT ==>
                values[c, r] == if r == row && c < |str| then ValueOf(str[c]) else old(values[c, r])
      ensures forall c, r :: 0 <= c < BG_WIDTH && 0 <= r < BG_HEIGHT ==>
                attributes[c, r] == if r == row && c < |str| then AttributeOf(str[c]) else old(attributes[c, r])
    {
      feeds := 0;
      var column := 0;
      while column < |str|
        invariant 0 <= column <= |str|
        invariant feeds == CountFeedsInLine(str[..column])
        invariant powerFeeds == old(powerFeeds) + PowerFeedsInLine(str[..column], row)
        invariant forall c, r :: 0 <= c < BG_WIDTH && 0 <= r < BG_HEIGHT ==>
                    values[c, r] == if r == row && c < column then ValueOf(str[c]) else old(values[c, r])
        invariant forall c, r :: 0 <= c < BG_WIDTH && 0 <= r < BG_HEIGHT ==>
                    attributes[c, r] == if r == row && c < column then AttributeOf(str[c]) else old(attributes[c, r])
      {
        var ch := str[column];
        values[column, row] := ValueOf(ch);
        attributes[column, row] := AttributeOf(ch);
        if IsFeedChar(ch) {
          feeds := feeds + 1;
        }
        if ch == '3' {
          powerFeeds := powerFeeds + [MazePosition(column, row)];
        }
        assert str[..column + 1][..column] == str[..column];
        column := column + 1;
      }
      assert str[..|str|] == str;
    }
  }

  /** Adding line i to the source fills exactly that line's cells of row RowOfLine(i). */
  lemma CharAtExtendsSource(src: seq<string>, i: int, c: int, r: int)
    requires 0 <= i < |src| <= BG_HEIGHT - 3
    ensures CharAt(src[..i + 1], c, r) ==
              if r == RowOfLine(i) && 0 <= c < |src[i]| then Some(src[i][c]) else CharAt(src[..i], c, r)
  {
    var k := BG_HEIGHT - 4 - r;
    if 0 <= k < i {
      assert src[..i + 1][k] == src[..i][k];
    } else if k == i {
      assert src[..i + 1][k] == src[i];
    }
  }
}
