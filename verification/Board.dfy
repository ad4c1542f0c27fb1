/** The backlog board's reader and checks: scripts/check_backlog_board.py. */
module Board {
  import opened Wrappers

  /** A stamp: date, time and author. */
  type Stamp = (string, string, string)

  /** The patterns, which this code only applies: what a line, or a block of text, matches. */
  datatype Patterns = Patterns(
    section: string -> Option<string>,   // a section heading's title
    heading: string -> Option<string>,   // an item heading's box
    number: string -> Option<string>,    // the number a heading claims
    record: string -> bool,              // an appended record's first line
    stamp: string -> Option<Stamp>,
    moves: string -> set<string>,        // the metrics a block of text says it moves
    quoted: string -> set<string>,       // the metric names a block of text quotes
    declares: string -> seq<string>,     // the metrics a line declares new
    acknowledged: string -> bool,
    strip: string -> string)

  type Line = (nat, string)

  datatype Item = Item(line: nat, box: string, id: Option<string>, text: string, body: seq<Line>, section: string)

  predicate Finished(box: string) { box == "x" || box == "\U{8A18}\U{9332}" }

  const CLAIMED := "~"

  const KNOWN_COLLISIONS := {"C-1011", "C-1957"}

  /** A repeat that a decision has settled. */
  predicate Settled(number: string) { number in KNOWN_COLLISIONS }

  /** What counts as finished, and as settled. */
  lemma FinishedAndSettled(box: string, number: string)
    ensures Finished(box) <==> box == "x" || box == "\U{8A18}\U{9332}"
    ensures Settled(number) <==> number == "C-1011" || number == "C-1957"
  {
  }

  // --- reading -------------------------------------------------------------

  /** The title of the last section heading among the lines. */
  function SectionOf(p: Patterns, lines: seq<string>): string {
    if lines == [] then ""
    else
      match p.section(lines[|lines| - 1])
      case Some(title) => title
      case None => SectionOf(p, lines[..|lines| - 1])
  }

  function AddLine(p: Patterns, items: seq<Item>, number: nat, line: string, section: string): seq<Item> {
    match p.heading(line)
    case Some(box) => items + [Item(number, box, p.number(line), line, [], section)]
    case None =>
      if items == [] then items
      else
        var last := items[|items| - 1];
        items[|items| - 1 := last.(body := last.body + [(number, line)])]
  }

  function Read(p: Patterns, lines: seq<string>): seq<Item> {
    if lines == [] then []
    else AddLine(p, Read(p, lines[..|lines| - 1]), |lines|, lines[|lines| - 1], SectionOf(p, lines))
  }

  method ReadItems(p: Patterns, lines: seq<string>) returns (items: seq<Item>)
    ensures items == Read(p, lines)
  {
    items := [];
    var section := "";
    for i := 0 to |lines|
      invariant items == Read(p, lines[..i]) && section == SectionOf(p, lines[..i])
    {
      var line := lines[i];
      assert lines[..i + 1][..i] == lines[..i] && lines[..i + 1][i] == line;
      var title := p.section(line);
      if title.Some? { section := title.value; }
      var head := p.heading(line);
      if head.Some? {
        items := items + [Item(i + 1, head.value, p.number(line), line, [], section)];
      } else if items != [] {
        var last := items[|items| - 1];
        items := items[|items| - 1 := last.(body := last.body + [(i + 1, line)])];
      }
    }
    assert lines[..|lines|] == lines;
  }

  /** The lines with their numbers, from 1. */
  function Numbered(lines: seq<string>): seq<Line> {
    seq(|lines|, i requires 0 <= i < |lines| => (i + 1, lines[i]))
  }

  function ItemLines(item: Item): seq<Line> { [(item.line, item.text)] + item.body }

  function AllLines(items: seq<Item>): seq<Line> {
    if items == [] then [] else AllLines(items[..|items| - 1]) + ItemLines(items[|items| - 1])
  }

  /** The last of the lines that heads a section is the i-th. */
  ghost predicate LastSection(p: Patterns, lines: seq<string>, i: int) {
    0 <= i < |lines| && p.section(lines[i]).Some? && forall j :: i < j < |lines| ==> p.section(lines[j]).None?
  }

  lemma LastSectionLonger(p: Patterns, before: seq<string>, line: string, i: int)
    ensures LastSection(p, before + [line], i) <==>
            if p.section(line).Some? then i == |before| else LastSection(p, before, i)
  {
    var lines := before + [line];
    assert lines[|before|] == line && forall j :: 0 <= j < |before| ==> lines[j] == before[j];
  }

  lemma {:induction false} SectionIsTheLast(p: Patterns, lines: seq<string>, i: int)
    ensures LastSection(p, lines, i) ==> SectionOf(p, lines) == p.section(lines[i]).value
    ensures (forall j :: 0 <= j < |lines| ==> p.section(lines[j]).None?) ==> SectionOf(p, lines) == ""
  {
    if lines == [] {
    } else {
      var before, line := lines[..|lines| - 1], lines[|lines| - 1];
      assert lines == before + [line];
      LastSectionLonger(p, before, line, i);
      SectionIsTheLast(p, before, i);
      hide LastSection;
    }
  }

  /** Where the first item heads, or the end. */
  function Preamble(p: Patterns, lines: seq<string>): (n: nat)
    ensures n <= |lines|
    ensures forall i :: 0 <= i < n ==> p.heading(lines[i]).None?
    ensures n < |lines| ==> p.heading(lines[n]).Some?
  {
    if lines == [] || p.heading(lines[0]).Some? then 0 else 1 + Preamble(p, lines[1..])
  }

  lemma {:induction false} PreambleOfPrefix(p: Patterns, lines: seq<string>, line: string)
    ensures Preamble(p, lines) < |lines| ==> Preamble(p, lines + [line]) == Preamble(p, lines)
    ensures Preamble(p, lines) == |lines| ==>
              Preamble(p, lines + [line]) == if p.heading(line).Some? then |lines| else |lines| + 1
  {
    if lines != [] && p.heading(lines[0]).None? {
      PreambleOfPrefix(p, lines[1..], line);
      assert (lines + [line])[1..] == lines[1..] + [line];
    } else if lines == [] {
      assert [line][1..] == [];
      assert lines + [line] == [line];
    }
  }

  lemma AddLineLines(p: Patterns, items: seq<Item>, number: nat, line: string, section: string)
    ensures AllLines(AddLine(p, items, number, line, section)) ==
            AllLines(items) + (if items == [] && p.heading(line).None? then [] else [(number, line)])
    ensures AddLine(p, items, number, line, section) == [] <==> items == [] && p.heading(line).None?
  {
    var r := AddLine(p, items, number, line, section);
    if p.heading(line).Some? {
      assert r[..|items|] == items;
      assert ItemLines(r[|items|]) == [(number, line)];
    } else if items != [] {
      assert r[..|items| - 1] == items[..|items| - 1];
      var last := items[|items| - 1];
      assert ItemLines(r[|items| - 1]) == ItemLines(last) + [(number, line)];
    }
  }

  lemma NumberedAppend(lines: seq<string>, line: string)
    ensures Numbered(lines + [line]) == Numbered(lines) + [(|lines| + 1, line)]
  {
  }

  /** Nothing of the board is lost or moved: the items' headings and bodies, in order, are the
      numbered lines from the first heading on. */
  lemma {:induction false} ReadIsLossless(p: Patterns, lines: seq<string>)
    ensures AllLines(Read(p, lines)) == Numbered(lines)[Preamble(p, lines)..]
    ensures Read(p, lines) == [] <==> Preamble(p, lines) == |lines|
  {
    if lines == [] {
    } else {
      var before, line := lines[..|lines| - 1], lines[|lines| - 1];
      assert lines == before + [line];
      ReadIsLossless(p, before);
      PreambleOfPrefix(p, before, line);
      AddLineLines(p, Read(p, before), |lines|, line, SectionOf(p, lines));
      NumberedAppend(before, line);
      hide AddLine, AllLines, Numbered, SectionOf, Preamble;
    }
  }

  /** Exactly the heading lines head items: none hides in a body. */
  lemma {:induction false} HeadingsHeadItems(p: Patterns, lines: seq<string>)
    ensures forall item :: item in Read(p, lines) ==>
              && p.heading(item.text) == Some(item.box) && item.id == p.number(item.text)
              && (forall l :: l in item.body ==> p.heading(l.1).None?)
  {
    if lines == [] {
    } else {
      HeadingsHeadItems(p, lines[..|lines| - 1]);
      var items := Read(p, lines[..|lines| - 1]);
      if p.heading(lines[|lines| - 1]).None? && items != [] {
        var last := items[|items| - 1];
        assert last in items;
      }
    }
  }

  /** Each item keeps the section its own heading line stands under. */
  lemma {:induction false} ItemsKeepTheirSection(p: Patterns, lines: seq<string>)
    ensures forall item :: item in Read(p, lines) ==>
              0 < item.line <= |lines| && lines[item.line - 1] == item.text && item.section == SectionOf(p, lines[..item.line])
  {
    if lines == [] {
    } else {
      var before := lines[..|lines| - 1];
      ItemsKeepTheirSection(p, before);
      var items := Read(p, before);
      forall item | item in Read(p, lines)
        ensures 0 < item.line <= |lines| && lines[item.line - 1] == item.text && item.section == SectionOf(p, lines[..item.line])
      {
        if p.heading(lines[|lines| - 1]).None? && items != [] {
          assert items[|items| - 1] in items;
        }
        assert item.line <= |before| ==> lines[..item.line] == before[..item.line];
        assert lines[..|lines|] == lines;
      }
    }
  }

  // --- records -------------------------------------------------------------

  type Block = seq<Line>

  function AddToBlocks(p: Patterns, blocks: seq<Block>, line: Line): seq<Block> {
    if p.record(line.1) then blocks + [[line]]
    else if blocks == [] then blocks
    else blocks[|blocks| - 1 := blocks[|blocks| - 1] + [line]]
  }

  /** The appended records of a body, each from its own first line to the next. */
  function Blocks(p: Patterns, body: seq<Line>): seq<Block> {
    if body == [] then [] else AddToBlocks(p, Blocks(p, body[..|body| - 1]), body[|body| - 1])
  }

  method RecordBlocks(p: Patterns, body: seq<Line>) returns (blocks: seq<Block>)
    ensures blocks == Blocks(p, body)
  {
    blocks := [];
    var current: Block := [];
    for i := 0 to |body|
      invariant Blocks(p, body[..i]) == if current == [] then blocks else blocks + [current]
      invariant current == [] ==> blocks == []
    {
      var line := body[i];
      assert body[..i + 1][..i] == body[..i];
      ghost var before := Blocks(p, body[..i]);
      if p.record(line.1) {
        if current != [] { blocks := blocks + [current]; }
        current := [line];
      } else if current != [] {
        assert before[|before| - 1] == current;
        assert before[|before| - 1 := current + [line]] == blocks + [current + [line]];
        current := current + [line];
      }
    }
    assert body[..|body|] == body;
    if current != [] { blocks := blocks + [current]; }
  }

  function Joined(blocks: seq<Block>): seq<Line> {
    if blocks == [] then [] else Joined(blocks[..|blocks| - 1]) + blocks[|blocks| - 1]
  }

  ghost predicate IsBlock(p: Patterns, b: Block) {
    b != [] && p.record(b[0].1) && forall i :: 0 < i < |b| ==> !p.record(b[i].1)
  }

  /** How many lines come before the first record. */
  function Brief(p: Patterns, body: seq<Line>): (n: nat)
    ensures n <= |body|
    ensures forall i :: 0 <= i < n ==> !p.record(body[i].1)
    ensures n < |body| ==> p.record(body[n].1)
  {
    if body == [] || p.record(body[0].1) then 0 else 1 + Brief(p, body[1..])
  }

  lemma {:induction false} BriefOfPrefix(p: Patterns, body: seq<Line>, line: Line)
    ensures Brief(p, body + [line]) ==
            if Brief(p, body) < |body| || p.record(line.1) then Brief(p, body) else |body| + 1
  {
    if body == [] {
      assert [line][1..] == [] && body + [line] == [line];
    } else if !p.record(body[0].1) {
      BriefOfPrefix(p, body[1..], line);
      assert (body + [line])[1..] == body[1..] + [line];
    }
  }

  lemma AddToBlocksJoined(p: Patterns, blocks: seq<Block>, line: Line)
    ensures Joined(AddToBlocks(p, blocks, line)) ==
            if blocks == [] && !p.record(line.1) then [] else Joined(blocks) + [line]
  {
    var r := AddToBlocks(p, blocks, line);
    if p.record(line.1) {
      assert r[..|blocks|] == blocks && r[|blocks|] == [line];
    } else if blocks != [] {
      assert r[..|blocks| - 1] == blocks[..|blocks| - 1];
      assert r[|r| - 1] == blocks[|blocks| - 1] + [line];
    }
  }

  /** The blocks are the body's tail from its first record on. */
  lemma {:induction false} BlocksAreLossless(p: Patterns, body: seq<Line>)
    ensures Joined(Blocks(p, body)) == body[Brief(p, body)..]
    ensures Blocks(p, body) == [] <==> Brief(p, body) == |body|
  {
    if body == [] {
    } else {
      var before, line := body[..|body| - 1], body[|body| - 1];
      assert body == before + [line];
      BlocksAreLossless(p, before);
      BriefOfPrefix(p, before, line);
      AddToBlocksJoined(p, Blocks(p, before), line);
    }
  }

  /** Each block opens with a record and holds no other. */
  lemma {:induction false} BlocksAreRecords(p: Patterns, body: seq<Line>)
    ensures forall b :: b in Blocks(p, body) ==> IsBlock(p, b)
  {
    if body == [] {
    } else {
      var blocks := Blocks(p, body[..|body| - 1]);
      BlocksAreRecords(p, body[..|body| - 1]);
      if blocks != [] {
        assert blocks[|blocks| - 1] in blocks;
      }
    }
  }

  // --- collisions ----------------------------------------------------------

  datatype Site = Site(number: string, first: nat, again: nat)

  /** The first item a number heads. */
  function FirstLine(items: seq<Item>, number: string): Option<nat> {
    if items == [] then None
    else
      var earlier := FirstLine(items[..|items| - 1], number);
      if earlier.Some? then earlier
      else if items[|items| - 1].id == Some(number) then Some(items[|items| - 1].line)
      else None
  }

  function Sites(items: seq<Item>, accepted: bool): seq<Site> {
    if items == [] then []
    else
      var before, item := items[..|items| - 1], items[|items| - 1];
      Sites(before, accepted) + SiteOf(before, item, accepted)
  }

  function SiteOf(before: seq<Item>, item: Item, accepted: bool): seq<Site> {
    if item.id.Some? && FirstLine(before, item.id.value).Some? && (Settled(item.id.value)) == accepted
    then [Site(item.id.value, FirstLine(before, item.id.value).value, item.line)]
    else []
  }

  method CollisionSites(items: seq<Item>, accepted: bool) returns (sites: seq<Site>)
    ensures sites == Sites(items, accepted)
  {
    var seen: map<string, nat> := map[];
    sites := [];
    for i := 0 to |items|
      invariant sites == Sites(items[..i], accepted)
      invariant forall n :: n in seen <==> FirstLine(items[..i], n).Some?
      invariant forall n :: n in seen ==> Some(seen[n]) == FirstLine(items[..i], n)
    {
      var item := items[i];
      assert items[..i + 1][..i] == items[..i] && items[..i + 1][i] == item;
      if item.id.Some? {
        var number := item.id.value;
        if number in seen && (Settled(number)) == accepted {
          sites := sites + [Site(number, seen[number], item.line)];
        }
        if number !in seen { seen := seen[number := item.line]; }
      }
    }
    assert items[..|items|] == items;
  }

  function Heads(items: seq<Item>, number: string): nat {
    if items == [] then 0
    else Heads(items[..|items| - 1], number) + (if items[|items| - 1].id == Some(number) then 1 else 0)
  }

  function Reports(sites: seq<Site>, number: string): nat {
    if sites == [] then 0
    else Reports(sites[..|sites| - 1], number) + (if sites[|sites| - 1].number == number then 1 else 0)
  }

  lemma ReportsAppend(sites: seq<Site>, more: seq<Site>, number: string)
    requires |more| <= 1
    ensures Reports(sites + more, number) == Reports(sites, number) + (if more != [] && more[0].number == number then 1 else 0)
  {
    if more == [] {
      assert sites + more == sites;
    } else {
      assert (sites + more)[..|sites|] == sites;
    }
  }

  /** A number that heads k items is reported k - 1 times, each report naming the first of them,
      and all of them on the one side that the settled list puts the number on. */
  lemma {:induction false} RepeatsAreAllReported(items: seq<Item>, number: string)
    ensures var side := Settled(number);
            && Reports(Sites(items, side), number) == (if Heads(items, number) == 0 then 0 else Heads(items, number) - 1)
            && Reports(Sites(items, !side), number) == 0
    ensures FirstLine(items, number).Some? <==> Heads(items, number) > 0
  {
    hide Settled;
    if items == [] {
    } else {
      var before, item := items[..|items| - 1], items[|items| - 1];
      hide Sites, SiteOf, Reports;
      RepeatsAreAllReported(before, number);
      ReportsOneMore(items, true, number);
      ReportsOneMore(items, false, number);
    }
  }

  lemma ReportsOneMore(items: seq<Item>, side: bool, number: string)
    requires items != []
    ensures
      var before, item := items[..|items| - 1], items[|items| - 1];
      Reports(Sites(items, side), number) ==
      Reports(Sites(before, side), number)
      + (if item.id == Some(number) && FirstLine(before, number).Some? && Settled(number) == side then 1 else 0)
  {
    hide Settled;
    var before, item := items[..|items| - 1], items[|items| - 1];
    ReportsAppend(Sites(before, side), SiteOf(before, item, side), number);
  }

  lemma {:induction false} FirstLineStays(items: seq<Item>, k: nat, number: string)
    requires k <= |items| && FirstLine(items[..k], number).Some?
    ensures FirstLine(items, number) == FirstLine(items[..k], number)
  {
    if k < |items| {
      assert items[..|items| - 1][..k] == items[..k];
      FirstLineStays(items[..|items| - 1], k, number);
    } else {
      assert items[..k] == items;
    }
  }

  lemma {:induction false} SitesNameTheFirst(items: seq<Item>, accepted: bool)
    ensures forall s :: s in Sites(items, accepted) ==>
              FirstLine(items, s.number) == Some(s.first) && ((Settled(s.number)) == accepted)
  {
    if items == [] {
    } else {
      var before := items[..|items| - 1];
      SitesNameTheFirst(before, accepted);
      forall s | s in Sites(items, accepted)
        ensures FirstLine(items, s.number) == Some(s.first)
      {
        FirstLineStays(items, |items| - 1, s.number);
      }
    }
  }

  /** The i-th item, headed by the number, is not the first to be. */
  ghost predicate RepeatsAt(items: seq<Item>, number: string, i: int) {
    0 <= i < |items| && items[i].id == Some(number) && FirstLine(items[..i], number).Some?
  }

  /** and the line of the one that repeats it. */
  lemma {:induction false} SitesNameTheRepeat(items: seq<Item>, accepted: bool, s: Site)
    requires s in Sites(items, accepted)
    ensures exists i :: RepeatsAt(items, s.number, i) && s.again == items[i].line
  {
    if items == [] {
    } else {
      var before := items[..|items| - 1];
      if s in Sites(before, accepted) {
        SitesNameTheRepeat(before, accepted, s);
        var i :| RepeatsAt(before, s.number, i) && s.again == before[i].line;
        assert items[..i] == before[..i];
        assert RepeatsAt(items, s.number, i);
      } else {
        assert s in SiteOf(before, items[|items| - 1], accepted);
        assert RepeatsAt(items, s.number, |items| - 1);
      }
    }
  }

  /** Every number outside the settled list heads one item at most. */
  ghost predicate UniqueNumbers(items: seq<Item>) {
    forall n :: !Settled(n) ==> Heads(items, n) <= 1
  }

  lemma {:induction false} NoSiteNoReport(sites: seq<Site>)
    ensures sites == [] <==> forall n :: Reports(sites, n) == 0
  {
    if sites == [] {
    } else {
      assert Reports(sites, sites[|sites| - 1].number) > 0;
    }
  }

  lemma NoSitesIsUnique(items: seq<Item>)
    ensures Sites(items, false) == [] <==> UniqueNumbers(items)
  {
    hide Settled;
    NoSiteNoReport(Sites(items, false));
    forall n: string
      ensures Reports(Sites(items, false), n) == 0 <==> (!Settled(n) ==> Heads(items, n) <= 1)
    {
      RepeatsAreAllReported(items, n);
    }
  }

  // --- records in the wrong place ------------------------------------------

  function Flat(p: Patterns, lines: seq<string>): string {
    if lines == [] then ""
    else if |lines| == 1 then p.strip(lines[0])
    else p.strip(lines[0]) + "\n" + Flat(p, lines[1..])
  }

  /** It is every line, stripped, one to a line: what wraps in the file still reads as one block. */
  lemma {:induction false} FlatJoins(p: Patterns, a: seq<string>, b: seq<string>)
    requires a != [] && b != []
    ensures Flat(p, a + b) == Flat(p, a) + "\n" + Flat(p, b)
    ensures |a| == 1 ==> Flat(p, a) == p.strip(a[0])
  {
    if |a| == 1 {
      assert (a + b)[1..] == b;
    } else {
      FlatJoins(p, a[1..], b);
      assert (a + b)[1..] == a[1..] + b;
    }
  }

  function Texts(lines: seq<Line>): seq<string> {
    seq(|lines|, i requires 0 <= i < |lines| => lines[i].1)
  }

  lemma TextsInOrder(lines: seq<Line>)
    ensures |Texts(lines)| == |lines| && forall i :: 0 <= i < |lines| ==> Texts(lines)[i] == lines[i].1
  {
  }

  function Metrics(p: Patterns, item: Item): set<string> {
    p.moves(Flat(p, [item.text] + Texts(item.body)))
  }

  /** The item a stamp and a metric together belong to: the last that carries both. */
  function Home(p: Patterns, items: seq<Item>, stamp: Stamp, metric: string): Option<nat> {
    if items == [] then None
    else
      var item := items[|items| - 1];
      if p.stamp(item.text) == Some(stamp) && metric in Metrics(p, item) then Some(item.line)
      else Home(p, items[..|items| - 1], stamp, metric)
  }

  /** The stamp is in the item's heading; the metric is named anywhere in its block, over its
      heading and its whole body. */
  ghost predicate Carries(p: Patterns, item: Item, stamp: Stamp, metric: string) {
    && p.stamp(item.text) == Some(stamp)
    && metric in p.moves(if item.body == [] then p.strip(item.text)
                         else p.strip(item.text) + "\n" + Flat(p, seq(|item.body|, i requires 0 <= i < |item.body| => item.body[i].1)))
  }

  lemma CarriesItsMetrics(p: Patterns, item: Item, stamp: Stamp, metric: string)
    ensures Carries(p, item, stamp, metric) <==> p.stamp(item.text) == Some(stamp) && metric in Metrics(p, item)
  {
    var body := seq(|item.body|, i requires 0 <= i < |item.body| => item.body[i].1);
    assert Texts(item.body) == body;
    if item.body == [] {
      assert [item.text] + body == [item.text];
    } else {
      FlatJoins(p, [item.text], body);
    }
  }

  /** The last of the items that carries both is the i-th. */
  ghost predicate LastToCarry(p: Patterns, items: seq<Item>, stamp: Stamp, metric: string, i: int) {
    && 0 <= i < |items| && Carries(p, items[i], stamp, metric)
    && forall j :: i < j < |items| ==> !Carries(p, items[j], stamp, metric)
  }

  lemma LastToCarryLonger(p: Patterns, before: seq<Item>, item: Item, stamp: Stamp, metric: string, i: int)
    ensures LastToCarry(p, before + [item], stamp, metric, i) <==>
            if Carries(p, item, stamp, metric) then i == |before| else LastToCarry(p, before, stamp, metric, i)
  {
    hide Carries;
    var items := before + [item];
    assert items[|before|] == item && forall j :: 0 <= j < |before| ==> items[j] == before[j];
  }

  /** Home is that item, if there is one. */
  lemma {:induction false} HomeIsTheLast(p: Patterns, items: seq<Item>, stamp: Stamp, metric: string)
    ensures forall i :: LastToCarry(p, items, stamp, metric, i) ==> 0 <= i < |items| && Home(p, items, stamp, metric) == Some(items[i].line)
    ensures Home(p, items, stamp, metric).Some? ==> exists i :: LastToCarry(p, items, stamp, metric, i)
  {
    if items == [] {
    } else {
      var before, item := items[..|items| - 1], items[|items| - 1];
      assert items == before + [item];
      CarriesItsMetrics(p, item, stamp, metric);
      HomeIsTheLast(p, before, stamp, metric);
      hide Carries, Metrics, LastToCarry;
      forall i | LastToCarry(p, items, stamp, metric, i)
        ensures 0 <= i < |items| && Home(p, items, stamp, metric) == Some(items[i].line)
      {
        LastToCarryLonger(p, before, item, stamp, metric, i);
      }
      LastToCarryLonger(p, before, item, stamp, metric, |before|);
      if i :| LastToCarry(p, before, stamp, metric, i) {
        LastToCarryLonger(p, before, item, stamp, metric, i);
      }
    }
  }

  /** A record whose stamp, with a metric it quotes, belongs to another item. */
  ghost predicate Strays(p: Patterns, items: seq<Item>, item: Item, block: Block) {
    && block != [] && p.stamp(block[0].1).Some?
    && exists m :: m in p.quoted(Flat(p, Texts(block)))
                   && var home := Home(p, items, p.stamp(block[0].1).value, m); home.Some? && home.value != item.line
  }

  /** That is: some metric its block quotes, on whichever line, is carried with its stamp by another
      item, the last that does. */
  lemma StraysMeans(p: Patterns, items: seq<Item>, item: Item, block: Block)
    requires block != [] && p.stamp(block[0].1).Some?
    ensures Strays(p, items, item, block) <==>
            exists m, i ::
              && m in p.quoted(Flat(p, seq(|block|, j requires 0 <= j < |block| => block[j].1)))
              && LastToCarry(p, items, p.stamp(block[0].1).value, m, i) && items[i].line != item.line
  {
    hide LastToCarry, Home;
    var stamp := p.stamp(block[0].1).value;
    assert Texts(block) == seq(|block|, j requires 0 <= j < |block| => block[j].1);
    forall m
      ensures forall i :: LastToCarry(p, items, stamp, m, i) ==> 0 <= i < |items| && Home(p, items, stamp, m) == Some(items[i].line)
      ensures Home(p, items, stamp, m).Some? ==> exists i :: LastToCarry(p, items, stamp, m, i)
    {
      HomeIsTheLast(p, items, stamp, m);
    }
  }

  // --- the check -----------------------------------------------------------

  datatype Problem = Collision(site: Site) | Misplaced(line: nat) | Unfinished(line: nat, item: nat) | Stranded(key: Key, line: nat, metric: string)

  /** An item's number, or its line if it has none. */
  datatype Key = ById(id: string) | ByLine(line: nat)

  function KeyOf(item: Item): Key { if item.id.Some? then ById(item.id.value) else ByLine(item.line) }

  lemma KeysTellApart(item: Item)
    ensures KeyOf(item) == match item.id case Some(id) => ById(id) case None => ByLine(item.line)
  {
  }

  method HomesOf(p: Patterns, items: seq<Item>) returns (home: map<(Stamp, string), nat>)
    ensures forall s, m :: (s, m) in home <==> Home(p, items, s, m).Some?
    ensures forall s, m :: (s, m) in home ==> Some(home[(s, m)]) == Home(p, items, s, m)
  {
    home := map[];
    for i := 0 to |items|
      invariant forall s, m :: (s, m) in home <==> Home(p, items[..i], s, m).Some?
      invariant forall s, m :: (s, m) in home ==> Some(home[(s, m)]) == Home(p, items[..i], s, m)
    {
      var item := items[i];
      assert items[..i + 1][..i] == items[..i] && items[..i + 1][i] == item;
      var stamp := p.stamp(item.text);
      if stamp.Some? {
        var metrics := Metrics(p, item);
        home := home + map m | m in metrics :: (stamp.value, m) := item.line;
      }
    }
    assert items[..|items|] == items;
  }

  method MisplacedRecords(p: Patterns, items: seq<Item>) returns (problems: seq<Problem>)
    ensures forall q :: q in problems <==>
              exists item, block: Block :: item in items && block in Blocks(p, item.body)
                                    && Strays(p, items, item, block) && q == Misplaced(block[0].0)
  {
    var home := HomesOf(p, items);
    problems := [];
    for i := 0 to |items|
      invariant forall q :: q in problems <==>
                  exists item, block: Block :: item in items[..i] && block in Blocks(p, item.body)
                                        && Strays(p, items, item, block) && q == Misplaced(block[0].0)
    {
      var item := items[i];
      assert items[..i + 1] == items[..i] + [item];
      var blocks := RecordBlocks(p, item.body);
      for j := 0 to |blocks|
        invariant forall q :: q in problems <==>
                    || (exists it, block: Block :: it in items[..i] && block in Blocks(p, it.body)
                                            && Strays(p, items, it, block) && q == Misplaced(block[0].0))
                    || (exists block: Block :: block in blocks[..j] && Strays(p, items, item, block) && q == Misplaced(block[0].0))
      {
        var block := blocks[j];
        assert blocks[..j + 1] == blocks[..j] + [block];
        BlocksAreRecords(p, item.body);
        assert block in blocks;
        var stamp := p.stamp(block[0].1);
        if stamp.Some? {
          var names := p.quoted(Flat(p, Texts(block)));
          if exists m :: m in names && (stamp.value, m) in home && home[(stamp.value, m)] != item.line {
            problems := problems + [Misplaced(block[0].0)];
          }
        }
      }
      assert blocks[..|blocks|] == blocks;
    }
    assert items[..|items|] == items;
  }

  // --- claims left behind --------------------------------------------------

  ghost predicate Declares(p: Patterns, line: string, metric: string) { metric in p.declares(line) }

  /** Some finished heading among the lines declares the metric. */
  ghost predicate Done(p: Patterns, lines: seq<string>, metric: string) {
    exists i :: 0 <= i < |lines| && p.heading(lines[i]).Some? && Finished(p.heading(lines[i]).value) && Declares(p, lines[i], metric)
  }

  /** The first metric a claim promises that is already done. */
  function FirstDone(promised: seq<string>, done: set<string>): Option<string> {
    if promised == [] then None
    else if promised[0] in done then Some(promised[0])
    else FirstDone(promised[1..], done)
  }

  ghost predicate StrandedItem(p: Patterns, lines: seq<string>, item: Item) {
    item.box == CLAIMED && exists m :: m in p.declares(item.text) && Done(p, lines, m)
  }

  /** Stranded: an open claim, one of whose promises a finished heading of the board declares. */
  lemma StrandedMeans(p: Patterns, lines: seq<string>, item: Item)
    ensures StrandedItem(p, lines, item) <==>
            && item.box == "~"
            && exists m, i :: m in p.declares(item.text) && 0 <= i < |lines| && m in p.declares(lines[i])
                              && (p.heading(lines[i]) == Some("x") || p.heading(lines[i]) == Some("\U{8A18}\U{9332}"))
  {
    if StrandedItem(p, lines, item) {
      var m :| m in p.declares(item.text) && Done(p, lines, m);
      var i :| 0 <= i < |lines| && p.heading(lines[i]).Some? && Finished(p.heading(lines[i]).value) && Declares(p, lines[i], m);
      assert p.heading(lines[i]) == Some(p.heading(lines[i]).value);
    }
    if item.box == "~" {
      forall m, i | m in p.declares(item.text) && 0 <= i < |lines| && m in p.declares(lines[i])
                    && (p.heading(lines[i]) == Some("x") || p.heading(lines[i]) == Some("\U{8A18}\U{9332}"))
        ensures Done(p, lines, m)
      {
        assert Declares(p, lines[i], m);
      }
    }
  }

  /** m is the first of the metrics an item promises that is done already. */
  ghost predicate FirstKept(p: Patterns, lines: seq<string>, item: Item, m: string) {
    var promised := p.declares(item.text);
    exists a :: 0 <= a < |promised| && promised[a] == m && Done(p, lines, m) && forall b :: 0 <= b < a ==> !Done(p, lines, promised[b])
  }

  lemma {:induction false} FirstDoneFinds(promised: seq<string>, done: set<string>)
    ensures FirstDone(promised, done).Some? <==> exists m :: m in promised && m in done
    ensures FirstDone(promised, done).Some? ==>
              exists a :: 0 <= a < |promised| && promised[a] == FirstDone(promised, done).value && promised[a] in done
                          && forall b :: 0 <= b < a ==> promised[b] !in done
  {
    if promised == [] {
    } else {
      assert promised == [promised[0]] + promised[1..];
      FirstDoneFinds(promised[1..], done);
      if promised[0] !in done && FirstDone(promised, done).Some? {
        var rest := promised[1..];
        var a :| 0 <= a < |rest| && rest[a] == FirstDone(rest, done).value && rest[a] in done && forall b :: 0 <= b < a ==> rest[b] !in done;
        assert promised[a + 1] == rest[a] && forall b :: 0 < b < a + 1 ==> promised[b] == rest[b - 1];
      }
    }
  }

  method DoneMetrics(p: Patterns, lines: seq<string>) returns (done: set<string>)
    ensures forall m :: m in done <==> Done(p, lines, m)
  {
    done := {};
    for i := 0 to |lines|
      invariant forall m :: m in done <==> Done(p, lines[..i], m)
    {
      var line := lines[i];
      assert lines[..i + 1][..i] == lines[..i] && lines[..i + 1][i] == line;
      ghost var before := done;
      if p.heading(line).Some? && Finished(p.heading(line).value) {
        done := done + set m | m in p.declares(line);
      }
      forall m: string
        ensures m in done <==> Done(p, lines[..i + 1], m)
      {
        DoneOneMore(p, lines[..i], line, m);
        assert lines[..i] + [line] == lines[..i + 1];
      }
    }
    assert lines[..|lines|] == lines;
  }

  lemma DoneOneMore(p: Patterns, lines: seq<string>, line: string, m: string)
    ensures Done(p, lines + [line], m) <==>
            Done(p, lines, m) || (p.heading(line).Some? && Finished(p.heading(line).value) && Declares(p, line, m))
  {
    var all := lines + [line];
    assert all[|lines|] == line && forall i :: 0 <= i < |lines| ==> all[i] == lines[i];
    if Done(p, lines, m) {
      var i :| 0 <= i < |lines| && p.heading(lines[i]).Some? && Finished(p.heading(lines[i]).value) && Declares(p, lines[i], m);
      assert all[i] == lines[i];
    }
  }

  ghost predicate IsStranded(p: Patterns, lines: seq<string>, k: Key) {
    exists item :: item in Read(p, lines) && KeyOf(item) == k && StrandedItem(p, lines, item)
  }

  /** The last stranded claim among these items that k finds stands at `at.0`, and `at.1` is the
      first of its promises that is kept. */
  ghost predicate StrandedAt(p: Patterns, lines: seq<string>, items: seq<Item>, k: Key, at: (nat, string)) {
    exists j :: 0 <= j < |items| && KeyOf(items[j]) == k && StrandedItem(p, lines, items[j])
                && at.0 == items[j].line && FirstKept(p, lines, items[j], at.1)
                && forall i :: j < i < |items| ==> !(KeyOf(items[i]) == k && StrandedItem(p, lines, items[i]))
  }

  lemma StrandedAtLonger(p: Patterns, lines: seq<string>, items: seq<Item>, item: Item, k: Key, at: (nat, string))
    ensures StrandedAt(p, lines, items, k, at) && !(KeyOf(item) == k && StrandedItem(p, lines, item)) ==>
              StrandedAt(p, lines, items + [item], k, at)
    ensures KeyOf(item) == k && StrandedItem(p, lines, item) && at.0 == item.line && FirstKept(p, lines, item, at.1) ==>
              StrandedAt(p, lines, items + [item], k, at)
  {
    hide StrandedItem, FirstKept;
    var all := items + [item];
    assert all[|items|] == item && forall i :: 0 <= i < |items| ==> all[i] == items[i];
  }

  /** The claims whose promise is already kept elsewhere, by key. */
  method StrandedClaims(p: Patterns, lines: seq<string>) returns (out: map<Key, (nat, string)>)
    ensures forall k :: k in out <==> IsStranded(p, lines, k)
    ensures forall k :: k in out ==> StrandedAt(p, lines, Read(p, lines), k, out[k])
  {
    hide StrandedAt, Read, Done, FirstKept;
    var done := DoneMetrics(p, lines);
    var items := ReadItems(p, lines);
    out := map[];
    for i := 0 to |items|
      invariant forall k :: k in out <==> exists item :: item in items[..i] && KeyOf(item) == k && StrandedItem(p, lines, item)
      invariant forall k :: k in out ==> StrandedAt(p, lines, items[..i], k, out[k])
    {
      var item := items[i];
      assert items[..i + 1] == items[..i] + [item];
      var hit := FirstDone(p.declares(item.text), done);
      HitIsFirstKept(p, lines, item, done);
      if item.box == CLAIMED && hit.Some? {
        out := out[KeyOf(item) := (item.line, hit.value)];
      }
      forall k | k in out
        ensures StrandedAt(p, lines, items[..i + 1], k, out[k])
      {
        StrandedAtLonger(p, lines, items[..i], item, k, out[k]);
      }
    }
    assert items[..|items|] == items;
  }

  lemma HitIsFirstKept(p: Patterns, lines: seq<string>, item: Item, done: set<string>)
    requires forall m :: m in done <==> Done(p, lines, m)
    ensures StrandedItem(p, lines, item) <==> item.box == CLAIMED && FirstDone(p.declares(item.text), done).Some?
    ensures FirstDone(p.declares(item.text), done).Some? ==> FirstKept(p, lines, item, FirstDone(p.declares(item.text), done).value)
  {
    hide Done;
    FirstDoneFinds(p.declares(item.text), done);
  }

  /** The last item that a key finds. */
  function LastItem(items: seq<Item>, k: Key): Option<Item> {
    if items == [] then None
    else if KeyOf(items[|items| - 1]) == k then Some(items[|items| - 1])
    else LastItem(items[..|items| - 1], k)
  }

  function Unbroken(lines: seq<string>): string {
    if lines == [] then "" else if |lines| == 1 then lines[0] else lines[0] + "\n" + Unbroken(lines[1..])
  }

  lemma {:induction false} UnbrokenJoins(a: seq<string>, b: seq<string>)
    requires a != [] && b != []
    ensures Unbroken(a + b) == Unbroken(a) + "\n" + Unbroken(b)
    ensures |a| == 1 ==> Unbroken(a) == a[0]
  {
    if |a| == 1 {
      assert (a + b)[1..] == b;
    } else {
      UnbrokenJoins(a[1..], b);
      assert (a + b)[1..] == a[1..] + b;
    }
  }

  /** The last of the items that the key finds is the i-th. */
  ghost predicate LastWith(items: seq<Item>, k: Key, i: int) {
    0 <= i < |items| && KeyOf(items[i]) == k && forall j :: i < j < |items| ==> KeyOf(items[j]) != k
  }

  lemma LastWithLonger(before: seq<Item>, item: Item, k: Key, i: int)
    ensures LastWith(before + [item], k, i) <==> if KeyOf(item) == k then i == |before| else LastWith(before, k, i)
  {
    var items := before + [item];
    assert items[|before|] == item && forall j :: 0 <= j < |before| ==> items[j] == before[j];
  }

  lemma {:induction false} LastItemIsLast(items: seq<Item>, k: Key, i: int)
    ensures LastWith(items, k, i) ==> 0 <= i < |items| && LastItem(items, k) == Some(items[i])
    ensures LastItem(items, k).Some? ==> exists j :: LastWith(items, k, j)
  {
    if items == [] {
    } else {
      var before, item := items[..|items| - 1], items[|items| - 1];
      assert items == before + [item];
      LastWithLonger(before, item, k, i);
      LastWithLonger(before, item, k, |before|);
      LastItemIsLast(before, k, i);
      hide LastWith;
      if j :| LastWith(before, k, j) {
        LastWithLonger(before, item, k, j);
      }
    }
  }

  /** Stranded in both boards, and not acknowledged under the last item the key finds. */
  ghost predicate LeftBehind(p: Patterns, lines: seq<string>, previous: seq<string>, k: Key) {
    && IsStranded(p, lines, k) && IsStranded(p, previous, k)
    && (LastItem(Read(p, lines), k).Some? ==>
          !p.acknowledged(Unbroken(Texts(LastItem(Read(p, lines), k).value.body))))
  }

  /** The body of the last item that the key finds acknowledges it. */
  ghost predicate Excused(p: Patterns, items: seq<Item>, k: Key) {
    exists i :: LastWith(items, k, i) && p.acknowledged(Unbroken(Texts(items[i].body)))
  }

  /** So that, and nothing else, lets off a claim stranded in both boards. */
  lemma LeftBehindMeans(p: Patterns, lines: seq<string>, previous: seq<string>, k: Key)
    ensures LeftBehind(p, lines, previous, k) <==>
            IsStranded(p, lines, k) && IsStranded(p, previous, k) && !Excused(p, Read(p, lines), k)
  {
    hide IsStranded, Read, LastWith, LastItem, Unbroken, Texts;
    LastIsExcused(p, Read(p, lines), k);
  }

  lemma LastIsExcused(p: Patterns, items: seq<Item>, k: Key)
    ensures Excused(p, items, k) <==>
            LastItem(items, k).Some? && p.acknowledged(Unbroken(Texts(LastItem(items, k).value.body)))
  {
    hide LastItem, Unbroken, Texts;
    LastItemIsLast(items, k, 0);
    forall i | LastWith(items, k, i)
      ensures LastItem(items, k) == Some(items[i])
    {
      LastItemIsLast(items, k, i);
    }
  }

  method StrandedUnacknowledged(p: Patterns, lines: seq<string>, previous: seq<string>) returns (problems: seq<Problem>)
    ensures forall q :: q in problems ==>
              && q.Stranded? && IsStranded(p, lines, q.key) && IsStranded(p, previous, q.key)
              && LeftBehind(p, lines, previous, q.key) && StrandedAt(p, lines, Read(p, lines), q.key, (q.line, q.metric))
    ensures forall k :: LeftBehind(p, lines, previous, k) ==> exists q :: q in problems && q.Stranded? && q.key == k
  {
    hide Read, IsStranded, LastItem, Unbroken, Texts, StrandedAt;
    var now := StrandedClaims(p, lines);
    var before := StrandedClaims(p, previous);
    var items := ReadItems(p, lines);
    problems := [];
    var left := now.Keys;
    while left != {}
      invariant left <= now.Keys
      invariant forall q :: q in problems ==>
                  q.Stranded? && LeftBehind(p, lines, previous, q.key) && StrandedAt(p, lines, Read(p, lines), q.key, (q.line, q.metric))
      invariant forall k :: k in now && k !in left && LeftBehind(p, lines, previous, k) ==> exists q :: q in problems && q.Stranded? && q.key == k
      decreases left
    {
      var k :| k in left;
      left := left - {k};
      var item := LastItem(items, k);
      if k in before && !(item.Some? && p.acknowledged(Unbroken(Texts(item.value.body)))) {
        assert LeftBehind(p, lines, previous, k);
        var q := Stranded(k, now[k].0, now[k].1);
        assert now[k] == (q.line, q.metric);
        problems := problems + [q];
        assert q in problems;
      }
    }
  }

  /** A record under an item that is not finished. */
  ghost predicate Premature(p: Patterns, item: Item) {
    !Finished(item.box) && exists l :: l in item.body && p.record(l.1)
  }

  lemma PrematureMeans(p: Patterns, item: Item)
    ensures Premature(p, item) <==>
            item.box != "x" && item.box != "\U{8A18}\U{9332}" && exists i :: 0 <= i < |item.body| && p.record(item.body[i].1)
  {
    if i :| 0 <= i < |item.body| && p.record(item.body[i].1) {
      assert item.body[i] in item.body;
    }
  }

  function FirstRecord(p: Patterns, body: seq<Line>): (r: Option<nat>)
    ensures r.Some? <==> exists l :: l in body && p.record(l.1)
  {
    if body == [] then None
    else
      assert body == [body[0]] + body[1..];
      if p.record(body[0].1) then Some(body[0].0) else FirstRecord(p, body[1..])
  }

  /** The record named is the item's first. */
  lemma {:induction false} FirstRecordIsFirst(p: Patterns, body: seq<Line>)
    ensures forall i :: 0 <= i < |body| && p.record(body[i].1) && (forall j :: 0 <= j < i ==> !p.record(body[j].1)) ==>
              FirstRecord(p, body) == Some(body[i].0)
  {
    if body == [] {
    } else {
      FirstRecordIsFirst(p, body[1..]);
      assert forall i :: 0 < i < |body| ==> body[i] == body[1..][i - 1];
    }
  }

  method PrematureRecords(p: Patterns, items: seq<Item>) returns (problems: seq<Problem>)
    ensures forall q :: q in problems <==>
              exists item :: item in items && Premature(p, item) && Some(q) == Early(p, item)
  {
    problems := [];
    for i := 0 to |items|
      invariant forall q :: q in problems <==>
                  exists item :: item in items[..i] && Premature(p, item) && Some(q) == Early(p, item)
    {
      var item := items[i];
      assert items[..i + 1] == items[..i] + [item];
      var early := Early(p, item);
      if !Finished(item.box) && early.Some? {
        problems := problems + [early.value];
        assert Premature(p, item);
      } else {
        assert !Premature(p, item);
      }
    }
    assert items[..|items|] == items;
  }

  /** What is reported of an item's first record, if it has one. */
  function Early(p: Patterns, item: Item): Option<Problem> {
    match FirstRecord(p, item.body)
    case Some(line) => Some(Unfinished(line, item.line))
    case None => None
  }

  /** Nothing on the board is wrong. */
  ghost predicate Consistent(p: Patterns, lines: seq<string>, previous: Option<seq<string>>) {
    var items := Read(p, lines);
    && UniqueNumbers(items)
    && (forall item, block: Block :: item in items && block in Blocks(p, item.body) ==> !Strays(p, items, item, block))
    && (forall item :: item in items ==> !Premature(p, item))
    && (previous.Some? ==> forall k :: !LeftBehind(p, lines, previous.value, k))
  }

  /** The check is silent exactly on a consistent board. */
  method Check(p: Patterns, lines: seq<string>, previous: Option<seq<string>>) returns (problems: seq<Problem>)
    ensures problems == [] <==> Consistent(p, lines, previous)
  {
    var items := ReadItems(p, lines);
    var sites := CollisionSites(items, false);
    NoSitesIsUnique(items);
    problems := seq(|sites|, i requires 0 <= i < |sites| => Collision(sites[i]));
    var misplaced := MisplacedRecords(p, items);
    NoneMisplaced(p, items, misplaced);
    var premature := PrematureRecords(p, items);
    NonePremature(p, items, premature);
    problems := problems + misplaced + premature;
    if previous.Some? {
      var stranded := StrandedUnacknowledged(p, lines, previous.value);
      assert stranded != [] ==> LeftBehind(p, lines, previous.value, stranded[0].key);
      problems := problems + stranded;
    }
  }

  lemma NonePremature(p: Patterns, items: seq<Item>, problems: seq<Problem>)
    requires forall q :: q in problems <==> exists item :: item in items && Premature(p, item) && Some(q) == Early(p, item)
    ensures problems == [] <==> forall item :: item in items ==> !Premature(p, item)
  {
    if problems != [] {
      assert problems[0] in problems;
    }
    if item :| item in items && Premature(p, item) {
      assert Early(p, item).Some?;
      assert Early(p, item).value in problems;
    }
  }

  lemma NoneMisplaced(p: Patterns, items: seq<Item>, problems: seq<Problem>)
    requires forall q :: q in problems <==>
               exists item, block: Block :: item in items && block in Blocks(p, item.body)
                                            && Strays(p, items, item, block) && q == Misplaced(block[0].0)
    ensures problems == [] <==>
            forall item, block: Block :: item in items && block in Blocks(p, item.body) ==> !Strays(p, items, item, block)
  {
    if problems != [] {
      assert problems[0] in problems;
    }
    if item, block: Block :| item in items && block in Blocks(p, item.body) && Strays(p, items, item, block) {
      assert Misplaced(block[0].0) in problems;
    }
  }
}
