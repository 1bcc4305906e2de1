/**
 * The player panel, `PlayerListRenderer` of src/scripts/index.js (lines
 * 194-228). Its DOM target is modelled as the sequence of entries appended
 * to it; each entry records the swatch style, the name text and the life
 * markup that `renderPlayer` writes.
 */
module PlayerList {
  import opened Options
  import opened Constants
  import opened WorldModel

  /** The markup of one heart: the HTML character reference for U+2764. */
  const HeartEntity: string := "&#10084;"

  /** The character the browser shows for `HeartEntity`. */
  const HeartGlyph: char := '\U{2764}'

  /** The largest length `new Array(n)` accepts; any other `n` throws a RangeError. */
  const MaxArrayLength: int := 0xFFFF_FFFF

  /** `new Array(n).fill(v)`. */
  function Fill(n: nat, v: string): (r: seq<string>)
    ensures |r| == n && forall i :: 0 <= i < n ==> r[i] == v
  {
    seq(n, _ => v)
  }

  /** `parts.join(sep)`: the parts in order with `sep` between neighbours. */
  function Join(parts: seq<string>, sep: string): string {
    if |parts| == 0 then ""
    else if |parts| == 1 then parts[0]
    else parts[0] + sep + Join(parts[1..], sep)
  }

  /** The life markup of a player with `energy` lives: `new Array(energy).fill(heart).join('')`. */
  function Hearts(energy: nat): string {
    Join(Fill(energy, HeartEntity), "")
  }

  /**
   * The text the browser shows for markup assigned to `innerHTML`, as far
   * as this model parses it: each `HeartEntity` becomes one `HeartGlyph`
   * and every other character stands for itself.
   */
  function TextContent(html: string): string
    decreases |html|
  {
    if |html| >= |HeartEntity| && html[..|HeartEntity|] == HeartEntity then
      [HeartGlyph] + TextContent(html[|HeartEntity|..])
    else if html == [] then []
    else [html[0]] + TextContent(html[1..])
  }

  /** One more life adds one heart in front. */
  lemma HeartsSucc(n: nat)
    ensures Hearts(n + 1) == HeartEntity + Hearts(n)
  {
    var parts := Fill(n + 1, HeartEntity);
    assert parts[1..] == Fill(n, HeartEntity);
  }

  /** The markup is as long as `energy` heart references. */
  lemma {:induction false} HeartsLength(energy: nat)
    ensures |Hearts(energy)| == energy * |HeartEntity|
  {
    if energy > 0 {
      HeartsLength(energy - 1);
      HeartsSucc(energy - 1);
    }
  }

  /** Lives add up: the markup of `a + b` lives is that of `a` followed by that of `b`. */
  lemma {:induction false} HeartsAdd(a: nat, b: nat)
    ensures Hearts(a + b) == Hearts(a) + Hearts(b)
  {
    if a > 0 {
      HeartsAdd(a - 1, b);
      HeartsSucc(a - 1);
      HeartsSucc(a - 1 + b);
    } else {
      assert Hearts(0) == "";
    }
  }

  /** The panel shows exactly `energy` heart glyphs: none at all when `energy` is zero. */
  lemma {:induction false} HeartsText(energy: nat)
    ensures TextContent(Hearts(energy)) == seq(energy, _ => HeartGlyph)
  {
    if energy > 0 {
      HeartsSucc(energy - 1);
      HeartsText(energy - 1);
      var html := Hearts(energy);
      assert html[..|HeartEntity|] == HeartEntity;
      assert html[|HeartEntity|..] == Hearts(energy - 1);
    }
  }

  /** Different life counts give different markup. */
  lemma HeartsInjective(a: nat, b: nat)
    ensures Hearts(a) == Hearts(b) <==> a == b
  {
    HeartsLength(a);
    HeartsLength(b);
  }

  /**
   * The life markup `renderPlayer` computes, or `None` when `new
   * Array(energy)` throws for an energy that is not a valid array length.
   */
  function LifeIndicator(energy: int): (r: Option<string>)
    ensures r.Some? <==> 0 <= energy <= MaxArrayLength
    ensures r.Some? ==> TextContent(r.value) == seq(energy, _ => HeartGlyph)
  {
    if 0 <= energy <= MaxArrayLength then
      HeartsText(energy);
      Some(Hearts(energy))
    else
      None
  }

  /** What one panel entry shows: the colour swatch's style, the name and the life markup. */
  datatype PlayerEntry = PlayerEntry(swatchStyle: string, name: string, life: string)

  /** The entry `renderPlayer` appends for `player`, or `None` when it throws before appending. */
  function EntryOf(player: Entity): (r: Option<PlayerEntry>)
    ensures r.Some? <==> LifeIndicator(player.energy).Some?
    ensures r.Some? ==>
      r.value.swatchStyle == BackgroundColor(player.color) && r.value.name == player.name &&
      TextContent(r.value.life) == seq(player.energy, _ => HeartGlyph)
  {
    match LifeIndicator(player.energy)
    case Some(life) => Some(PlayerEntry(BackgroundColor(player.color), player.name, life))
    case None => None
  }

  /**
   * How many of `players` `render` gets through: every player before the
   * first one whose entry throws.
   */
  function Renderable(players: seq<Entity>): (n: nat)
    ensures n <= |players|
    ensures forall i :: 0 <= i < n ==> EntryOf(players[i]).Some?
    ensures n < |players| ==> EntryOf(players[n]).None?
  {
    if players == [] || EntryOf(players[0]).None? then 0
    else 1 + Renderable(players[1..])
  }

  class PlayerListRenderer {
    var entries: seq<PlayerEntry>

    /** The constructor empties the DOM target (`abortChildren`). */
    constructor ()
      ensures entries == []
    {
      entries := [];
    }

    /** `renderPlayer`: appends the player's entry, unless computing the hearts throws. */
    method RenderPlayer(player: Entity) returns (ok: bool)
      modifies this`entries
      ensures ok == EntryOf(player).Some?
      ensures entries == if ok then old(entries) + [EntryOf(player).value] else old(entries)
    {
      var life := LifeIndicator(player.energy);
      if life.None? {
        return false;
      }
      entries := entries + [PlayerEntry(BackgroundColor(player.color), player.name, life.value)];
      ok := true;
    }

    /**
     * `render`: one entry per player, in order, appended after what is
     * already there; the target is not cleared first. A player whose hearts
     * throw stops the loop, and `ok` is false.
     */
    method Render(players: seq<Entity>) returns (ok: bool)
      modifies this`entries
      ensures ok <==> Renderable(players) == |players|
      ensures |entries| == |old(entries)| + Renderable(players) && entries[..|old(entries)|] == old(entries)
      ensures forall i :: |old(entries)| <= i < |entries| ==> entries[i] == EntryOf(players[i - |old(entries)|]).value
    {
      var i := 0;
      while i < |players|
        invariant 0 <= i <= Renderable(players)
        invariant |entries| == |old(entries)| + i && entries[..|old(entries)|] == old(entries)
        invariant forall k :: |old(entries)| <= k < |entries| ==> entries[k] == EntryOf(players[k - |old(entries)|]).value
      {
        var done := RenderPlayer(players[i]);
        if !done {
          return false;
        }
        i := i + 1;
      }
      ok := true;
    }
  }
}
