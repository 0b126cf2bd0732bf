/** buildAskPrompt (src/ask.js): evidence blocks packed into a character budget. A block's header line is given. */
module AskPrompt {
  import opened Ordering
  import StableJson

  type Text = StableJson.Text

  datatype Block = Block(header: Text, text: Text)
  datatype Part = Part(block: Block, text: Text)

  const NEWLINE: StableJson.CodeUnit := 10

  function Clip(text: Text, n: nat): Text { if |text| <= n then text else text[..n] }

  function Render(p: Part): Text { p.block.header + p.text + [NEWLINE, NEWLINE] }

  /** What a part adds to the count. */
  function Cost(p: Part): nat { |p.block.header| + |p.text| + 2 }

  function Prompt(prefix: Text, parts: seq<Part>): Text {
    if parts == [] then prefix else Prompt(prefix, parts[..|parts| - 1]) + Render(parts[|parts| - 1])
  }

  function Size(parts: seq<Part>): nat {
    if parts == [] then 0 else Size(parts[..|parts| - 1]) + Cost(parts[|parts| - 1])
  }

  function BlocksOf(parts: seq<Part>): seq<Block> { Map(parts, (p: Part) => p.block) }

  lemma PartsMore(parts: seq<Part>, p: Part)
    ensures Size(parts + [p]) == Size(parts) + Cost(p)
  {
    assert (parts + [p])[..|parts|] == parts;
  }

  lemma {:induction false} PromptSize(prefix: Text, parts: seq<Part>)
    ensures |Prompt(prefix, parts)| == |prefix| + Size(parts)
  {
    if parts != [] { PromptSize(prefix, parts[..|parts| - 1]); }
  }

  lemma {:induction false} PromptPrefix(prefix: Text, parts: seq<Part>, n: nat)
    requires n <= |parts|
    ensures Prompt(prefix, parts[..n]) <= Prompt(prefix, parts)
    decreases |parts|
  {
    if n == |parts| {
      assert parts[..n] == parts;
    } else {
      assert parts[..|parts| - 1][..n] == parts[..n];
      PromptPrefix(prefix, parts[..|parts| - 1], n);
    }
  }

  lemma PromptStart(prefix: Text, parts: seq<Part>)
    ensures prefix <= Prompt(prefix, parts)
  {
    PromptPrefix(prefix, parts, 0);
  }

  /** How the prompt reads: the prefix, and where the parts ahead of part i end, its header, its text and an empty
      line. */
  lemma PromptLayout(prefix: Text, parts: seq<Part>, i: nat)
    requires i < |parts|
    ensures var prompt, at := Prompt(prefix, parts), |prefix| + Size(parts[..i]);
      var text := at + |parts[i].block.header|;
      && prefix <= prompt && text + |parts[i].text| + 2 <= |prompt|
      && prompt[at..text] == parts[i].block.header
      && prompt[text..text + |parts[i].text|] == parts[i].text
      && prompt[text + |parts[i].text|..text + |parts[i].text| + 2] == [10, 10]
  {
    PromptStart(prefix, parts);
    PromptAhead(prefix, parts, i);
    Within(Prompt(prefix, parts[..i]), parts[i].block.header, parts[i].text, [10, 10], Prompt(prefix, parts));
  }

  lemma PromptAhead(prefix: Text, parts: seq<Part>, i: nat)
    requires i < |parts|
    ensures var ahead := Prompt(prefix, parts[..i]);
      && |ahead| == |prefix| + Size(parts[..i])
      && ahead + (parts[i].block.header + parts[i].text + [10, 10]) <= Prompt(prefix, parts)
  {
    PromptSize(prefix, parts[..i]);
    PromptPrefix(prefix, parts, i + 1);
    assert parts[..i + 1][..i] == parts[..i];
  }

  lemma Within(ahead: Text, a: Text, b: Text, c: Text, all: Text)
    requires ahead + (a + b + c) <= all
    ensures var k := |ahead|;
      && all[k..k + |a|] == a && all[k + |a|..k + |a| + |b|] == b
      && all[k + |a| + |b|..k + |a| + |b| + |c|] == c
  {
    var whole := ahead + (a + b + c);
    assert all[..|whole|] == whole;
    assert forall i :: 0 <= i < |whole| ==> all[i] == whole[i];
  }

  /** What one block adds. */
  datatype Room = NoRoom | NoText | CutOff(part: Part) | Whole(part: Part)

  function Try(b: Block, used: nat, budget: int): Room {
    var remaining := budget - used - |b.header| - 2;
    if remaining <= 0 then NoRoom
    else
      var text := Clip(b.text, remaining);
      if text == [] then NoText else if |text| < |b.text| then CutOff(Part(b, text)) else Whole(Part(b, text))
  }

  /** The parts taken from the blocks once `used` characters are gone. */
  function Pack(blocks: seq<Block>, used: nat, budget: int): seq<Part> {
    if blocks == [] then []
    else
      match Try(blocks[0], used, budget)
      case NoRoom => []
      case NoText => Pack(blocks[1..], used, budget)
      case CutOff(p) => [p]
      case Whole(p) => [p] + Pack(blocks[1..], used + Cost(p), budget)
  }

  lemma PackStep(blocks: seq<Block>, i: nat, used: nat, budget: int)
    requires i < |blocks|
    ensures Pack(blocks[i..], used, budget)
            == match Try(blocks[i], used, budget)
               case NoRoom => []
               case NoText => Pack(blocks[i + 1..], used, budget)
               case CutOff(p) => [p]
               case Whole(p) => [p] + Pack(blocks[i + 1..], used + Cost(p), budget)
  {
    assert blocks[i..][0] == blocks[i] && blocks[i..][1..] == blocks[i + 1..];
  }

  /** The parts so far, and what the blocks from i on add, are everything. */
  ghost predicate PackedTo(blocks: seq<Block>, start: nat, budget: int, parts: seq<Part>, i: nat, chars: nat,
                           all: seq<Part>) {
    && i <= |blocks| && chars == start + Size(parts)
    && parts + Pack(blocks[i..], chars, budget) == all
  }

  lemma OneMorePart(parts: seq<Part>, p: Part, next: seq<Part>, all: seq<Part>)
    requires parts + ([p] + next) == all
    ensures (parts + [p]) + next == all
  {
    Assoc(parts, [p], next);
  }

  lemma NoMoreParts(parts: seq<Part>, all: seq<Part>)
    requires parts + [] == all
    ensures parts == all
  {
  }

  lemma OnStart(blocks: seq<Block>, start: nat, budget: int)
    ensures PackedTo(blocks, start, budget, [], 0, start, Pack(blocks, start, budget))
  {
    assert blocks[0..] == blocks;
  }

  lemma OnNoRoom(blocks: seq<Block>, start: nat, budget: int, parts: seq<Part>, i: nat, chars: nat, all: seq<Part>)
    requires PackedTo(blocks, start, budget, parts, i, chars, all)
    requires i == |blocks| || Try(blocks[i], chars, budget).NoRoom?
    ensures parts == all && chars == start + Size(parts)
  {
    if i < |blocks| { PackStep(blocks, i, chars, budget); }
    NoMoreParts(parts, all);
  }

  lemma OnNoText(blocks: seq<Block>, start: nat, budget: int, parts: seq<Part>, i: nat, chars: nat, all: seq<Part>)
    requires PackedTo(blocks, start, budget, parts, i, chars, all) && i < |blocks|
    requires Try(blocks[i], chars, budget).NoText?
    ensures PackedTo(blocks, start, budget, parts, i + 1, chars, all)
  {
    PackStep(blocks, i, chars, budget);
  }

  lemma OnCut(blocks: seq<Block>, start: nat, budget: int, parts: seq<Part>, i: nat, chars: nat, all: seq<Part>,
             p: Part)
    requires PackedTo(blocks, start, budget, parts, i, chars, all) && i < |blocks|
    requires Try(blocks[i], chars, budget) == CutOff(p)
    ensures parts + [p] == all && chars + Cost(p) == start + Size(parts + [p])
  {
    PackStep(blocks, i, chars, budget);
    PartsMore(parts, p);
  }

  lemma OnWhole(blocks: seq<Block>, start: nat, budget: int, parts: seq<Part>, i: nat, chars: nat, all: seq<Part>,
             p: Part)
    requires PackedTo(blocks, start, budget, parts, i, chars, all) && i < |blocks|
    requires Try(blocks[i], chars, budget) == Whole(p)
    ensures PackedTo(blocks, start, budget, parts + [p], i + 1, chars + Cost(p), all)
  {
    PackStep(blocks, i, chars, budget);
    PartsMore(parts, p);
    OneMorePart(parts, p, Pack(blocks[i + 1..], chars + Cost(p), budget), all);
  }

  /** One pass of the loop; done when it breaks off. */
  method PackOne(blocks: seq<Block>, ghost start: nat, budget: int, before: seq<Part>, i: nat, used: nat,
                 ghost all: seq<Part>)
    returns (parts: seq<Part>, chars: nat, done: bool)
    requires PackedTo(blocks, start, budget, before, i, used, all) && i < |blocks|
    ensures if done then parts == all && chars == start + Size(parts)
            else PackedTo(blocks, start, budget, parts, i + 1, chars, all)
  {
    parts, chars, done := before, used, false;
    match Try(blocks[i], used, budget)
    case NoRoom =>
      OnNoRoom(blocks, start, budget, before, i, used, all);
      done := true;
    case NoText => OnNoText(blocks, start, budget, before, i, used, all);
    case CutOff(p) =>
      OnCut(blocks, start, budget, before, i, used, all, p);
      parts, chars, done := before + [p], used + Cost(p), true;
    case Whole(p) =>
      OnWhole(blocks, start, budget, before, i, used, all, p);
      parts, chars := before + [p], used + Cost(p);
  }

  /** The loop. */
  method PackBlocks(blocks: seq<Block>, start: nat, budget: int) returns (parts: seq<Part>, chars: nat)
    ensures parts == Pack(blocks, start, budget) && chars == start + Size(parts)
  {
    parts, chars := [], start;
    ghost var all := Pack(blocks, start, budget);
    OnStart(blocks, start, budget);
    for i := 0 to |blocks|
      invariant PackedTo(blocks, start, budget, parts, i, chars, all)
    {
      var done;
      parts, chars, done := PackOne(blocks, start, budget, parts, i, chars, all);
      if done { return; }
    }
    OnNoRoom(blocks, start, budget, parts, |blocks|, chars, all);
  }

  method BuildAskPrompt(prefix: Text, blocks: seq<Block>, budget: int)
    returns (prompt: Text, included: seq<Block>, chars: nat)
    ensures var parts := Pack(blocks, |prefix|, budget);
      && prompt == Prompt(prefix, parts) && included == BlocksOf(parts)
      && chars == |prompt| == |prefix| + Size(parts)
  {
    var parts;
    parts, chars := PackBlocks(blocks, |prefix|, budget);
    prompt, included := Prompt(prefix, parts), BlocksOf(parts);
    PromptSize(prefix, parts);
  }

  predicate Speaks(b: Block) { b.text != [] }

  function Speaking(blocks: seq<Block>): seq<Block> { Filter(blocks, (b: Block) => Speaks(b)) }

  /** A non-empty beginning of a block. */
  predicate Piece(p: Part) { p.text != [] && p.text <= p.block.text }

  /** Every part but perhaps the last is a whole block, and the last is a non-empty beginning of one. */
  ghost predicate WholeButLast(parts: seq<Part>) {
    && (forall i :: 0 <= i < |parts| - 1 ==> parts[i].text == parts[i].block.text)
    && (forall i :: 0 <= i < |parts| ==> Piece(parts[i]))
  }

  predicate LastCut(parts: seq<Part>) { parts != [] && parts[|parts| - 1].text != parts[|parts| - 1].block.text }

  lemma {:induction false} SizeCons(p: Part, parts: seq<Part>)
    ensures Size([p] + parts) == Cost(p) + Size(parts)
  {
    if parts == [] {
      assert ([p] + parts)[..0] == [];
    } else {
      SizeCons(p, parts[..|parts| - 1]);
      assert ([p] + parts)[..|parts|] == [p] + parts[..|parts| - 1];
    }
  }

  /** All parts are whole blocks but perhaps the last, which is a beginning of one. */
  lemma {:induction false} PiecesInOrder(blocks: seq<Block>, used: nat, budget: int)
    ensures WholeButLast(Pack(blocks, used, budget))
    decreases blocks
  {
    if blocks != [] && Try(blocks[0], used, budget).NoText? {
      PiecesInOrder(blocks[1..], used, budget);
    } else if blocks != [] && Try(blocks[0], used, budget).Whole? {
      PiecesInOrder(blocks[1..], used + Cost(Try(blocks[0], used, budget).part), budget);
    }
  }

  /** The blocks taken are the first ones with any text, in order. */
  lemma {:induction false} FirstBlocks(blocks: seq<Block>, used: nat, budget: int)
    ensures BlocksOf(Pack(blocks, used, budget)) <= Speaking(blocks)
    decreases blocks
  {
    if blocks != [] {
      var room := Try(blocks[0], used, budget);
      if room.NoText? {
        FirstBlocks(blocks[1..], used, budget);
      } else if room.Whole? {
        var next := used + Cost(room.part);
        FirstBlocks(blocks[1..], next, budget);
        assert BlocksOf(Pack(blocks, used, budget)) == [blocks[0]] + BlocksOf(Pack(blocks[1..], next, budget));
        assert Speaking(blocks) == [blocks[0]] + Speaking(blocks[1..]);
      } else if room.CutOff? {
        assert Speaking(blocks) == [blocks[0]] + Speaking(blocks[1..]);
      }
    }
  }

  /** What is taken fits the budget, and a cut fills it to the last character. */
  lemma {:induction false} WithinBudget(blocks: seq<Block>, used: nat, budget: int)
    ensures var parts := Pack(blocks, used, budget);
      && (parts != [] ==> used + Size(parts) <= budget)
      && (LastCut(parts) ==> used + Size(parts) == budget)
    decreases blocks
  {
    if blocks != [] {
      var room := Try(blocks[0], used, budget);
      if room.NoText? {
        WithinBudget(blocks[1..], used, budget);
      } else if room.Whole? {
        var next := used + Cost(room.part);
        WithinBudget(blocks[1..], next, budget);
        SizeCons(room.part, Pack(blocks[1..], next, budget));
        LastOfCons(room.part, Pack(blocks[1..], next, budget));
      } else if room.CutOff? {
        SizeCons(room.part, []);
        assert [room.part] + [] == [room.part];
      }
    }
  }

  lemma LastOfCons(p: Part, rest: seq<Part>)
    ensures LastCut([p] + rest) <==> if rest == [] then p.text != p.block.text else LastCut(rest)
  {
  }

  /*** What is left out ***/

  /** What a block takes when all of its text is included; one without text takes nothing. */
  function FullSize(b: Block): nat { if Speaks(b) then |b.header| + |b.text| + 2 else 0 }

  function FullSizes(blocks: seq<Block>): nat {
    if blocks == [] then 0 else FullSize(blocks[0]) + FullSizes(blocks[1..])
  }

  /** How many characters of block i's text there is room for when every block ahead of it is included in full. */
  function Left(blocks: seq<Block>, i: nat, used: nat, budget: int): int
    requires i < |blocks|
  {
    budget - (used + FullSizes(blocks[..i])) - |blocks[i].header| - 2
  }

  /** Block i ends the packing: there is no room for it, or not enough. */
  predicate Ends(blocks: seq<Block>, i: nat, used: nat, budget: int) {
    i < |blocks| && (Left(blocks, i, used, budget) <= 0 || Left(blocks, i, used, budget) < |blocks[i].text|)
  }

  /** Block i shuts out block j: it ends the packing ahead of it, or it is block j and there is no room at all. */
  predicate ShutsOut(blocks: seq<Block>, i: nat, j: nat, used: nat, budget: int) {
    i <= j && Ends(blocks, i, used, budget) && (i == j ==> Left(blocks, i, used, budget) <= 0)
  }

  /** A block ahead of block j ends the packing, or block j does and has no room at all. */
  ghost predicate Shut(blocks: seq<Block>, j: nat, used: nat, budget: int)
    requires j < |blocks|
  {
    exists i: nat {:trigger ShutsOut(blocks, i, j, used, budget)} :: ShutsOut(blocks, i, j, used, budget)
  }

  lemma RoomLater(blocks: seq<Block>, i: nat, used: nat, budget: int)
    requires i + 1 < |blocks|
    ensures Left(blocks, i + 1, used, budget) == Left(blocks[1..], i, used + FullSize(blocks[0]), budget)
    ensures Ends(blocks, i + 1, used, budget) <==> Ends(blocks[1..], i, used + FullSize(blocks[0]), budget)
  {
    assert blocks[..i + 1][0] == blocks[0] && blocks[..i + 1][1..] == blocks[1..][..i];
  }

  lemma ShutsOutLater(blocks: seq<Block>, i: nat, j: nat, used: nat, budget: int)
    requires 0 < i && 0 < j < |blocks|
    ensures ShutsOut(blocks, i, j, used, budget)
            <==> ShutsOut(blocks[1..], i - 1, j - 1, used + FullSize(blocks[0]), budget)
  {
    if i < |blocks| { RoomLater(blocks, i - 1, used, budget); }
  }

  lemma ShutLater(blocks: seq<Block>, j: nat, used: nat, budget: int)
    requires 0 < j < |blocks| && !Ends(blocks, 0, used, budget)
    ensures Shut(blocks, j, used, budget) <==> Shut(blocks[1..], j - 1, used + FullSize(blocks[0]), budget)
  {
    var rest, next := blocks[1..], used + FullSize(blocks[0]);
    if i: nat :| ShutsOut(blocks, i, j, used, budget) {
      ShutsOutLater(blocks, i, j, used, budget);
      assert ShutsOut(rest, i - 1, j - 1, next, budget);
    }
    var k := j - 1;
    if i: nat :| ShutsOut(rest, i, k, next, budget) {
      ShutsOutLater(blocks, i + 1, j, used, budget);
      assert ShutsOut(blocks, i + 1, j, used, budget);
    }
  }

  lemma ShutAtOnce(blocks: seq<Block>, j: nat, used: nat, budget: int)
    requires j < |blocks| && (Ends(blocks, 0, used, budget) || j == 0)
    ensures Shut(blocks, j, used, budget) <==> j > 0 || Left(blocks, 0, used, budget) <= 0
  {
    if j > 0 || Left(blocks, 0, used, budget) <= 0 { assert ShutsOut(blocks, 0, j, used, budget); }
  }

  /** How many blocks with text come before block j. */
  function Ahead(blocks: seq<Block>, j: nat): nat
    requires j <= |blocks|
  {
    |Speaking(blocks[..j])|
  }

  lemma AheadLater(blocks: seq<Block>, j: nat)
    requires 0 < j <= |blocks|
    ensures Ahead(blocks, j) == Ahead(blocks[1..], j - 1) + if Speaks(blocks[0]) then 1 else 0
  {
    assert blocks[..j][0] == blocks[0] && blocks[..j][1..] == blocks[1..][..j - 1];
  }

  lemma FirstRoom(blocks: seq<Block>, used: nat, budget: int)
    requires blocks != []
    ensures var left, room := Left(blocks, 0, used, budget), Try(blocks[0], used, budget);
      && (room.NoRoom? <==> left <= 0)
      && (room.CutOff? <==> 0 < left < |blocks[0].text|)
      && (room.NoText? <==> 0 < left && blocks[0].text == [])
  {
    assert blocks[..0] == [];
  }

  lemma PackLength(blocks: seq<Block>, used: nat, budget: int)
    requires blocks != []
    ensures var room := Try(blocks[0], used, budget);
      && (room.NoRoom? ==> |Pack(blocks, used, budget)| == 0)
      && (room.CutOff? ==> |Pack(blocks, used, budget)| == 1 && Speaks(blocks[0]))
      && (room.NoText? || room.Whole? ==>
            && (room.Whole? <==> Speaks(blocks[0]))
            && |Pack(blocks, used, budget)|
               == |Pack(blocks[1..], used + FullSize(blocks[0]), budget)| + if Speaks(blocks[0]) then 1 else 0)
  {
  }

  lemma LeftOutHere(blocks: seq<Block>, used: nat, budget: int, j: nat)
    requires j < |blocks| && Speaks(blocks[j]) && (Ends(blocks, 0, used, budget) || j == 0)
    ensures |Pack(blocks, used, budget)| <= Ahead(blocks, j) <==> Shut(blocks, j, used, budget)
  {
    FirstRoom(blocks, used, budget);
    PackLength(blocks, used, budget);
    ShutAtOnce(blocks, j, used, budget);
    if j > 0 { AheadLater(blocks, j); }
  }

  lemma LeftOutLater(blocks: seq<Block>, used: nat, budget: int, j: nat)
    requires 0 < j < |blocks| && Speaks(blocks[j]) && !Ends(blocks, 0, used, budget)
    requires var next := used + FullSize(blocks[0]);
      |Pack(blocks[1..], next, budget)| <= Ahead(blocks[1..], j - 1) <==> Shut(blocks[1..], j - 1, next, budget)
    ensures |Pack(blocks, used, budget)| <= Ahead(blocks, j) <==> Shut(blocks, j, used, budget)
  {
    FirstRoom(blocks, used, budget);
    PackLength(blocks, used, budget);
    ShutLater(blocks, j, used, budget);
    AheadLater(blocks, j);
  }

  /** The included blocks being the first ones with text, a block with text is left out exactly when some block ahead of
      it, perhaps an empty one, has no room or not enough, or it has no room itself, each counted after everything
      ahead in full. */
  lemma {:induction false} LeftOut(blocks: seq<Block>, used: nat, budget: int, j: nat)
    requires j < |blocks| && Speaks(blocks[j])
    ensures |Pack(blocks, used, budget)| <= Ahead(blocks, j) <==> Shut(blocks, j, used, budget)
    decreases |blocks|
  {
    if Ends(blocks, 0, used, budget) || j == 0 {
      LeftOutHere(blocks, used, budget, j);
    } else {
      LeftOut(blocks[1..], used + FullSize(blocks[0]), budget, j - 1);
      LeftOutLater(blocks, used, budget, j);
    }
  }
}
