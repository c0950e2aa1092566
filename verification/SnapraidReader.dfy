/** A line reader for SnapRAID configurations, the round trip with the operator's printer, and the second printer. */
module SnapraidReader {
  import opened Wrappers
  import opened Text
  import opened Snapraid
  import opened Api

  datatype Item = Nothing | Parity(index: nat, mountPoint: string) | Content(path: string)
                | Data(tag: string, mountPoint: string) | Exclude(pattern: string)

  /** What a configuration file says. */
  datatype Reading = Reading(parity: seq<(nat, string)>, data: seq<(string, string)>, content: seq<string>, excludes: seq<string>)

  const EMPTY := Reading([], [], [], [])

  /** The parity file a SnapRAID parity path names lies directly under the mount point. */
  function ParityItem(index: nat, path: string): Item {
    var n := |path| - |"/snapraid.parity"|;
    if n >= 0 && path[n..] == "/snapraid.parity" then Parity(index, path[..n]) else Nothing
  }

  function ParseLine(l: string): Item {
    if "parity " <= l then ParityItem(1, l[7..])
    else if "content " <= l then Content(l[8..])
    else if "exclude " <= l then Exclude(l[8..])
    else if "data " <= l then
      var rest := l[5..];
      var i := IndexOf(rest, ' ');
      if i == |rest| then Nothing else Data(rest[..i], rest[i + 1..])
    else ParseNumbered(l)
  }

  function ParseNumbered(l: string): Item {
    var i := IndexOf(l, '-');
    if i > 0 && "-parity " <= l[i..] && (forall c | c in l[..i] :: IsDigit(c)) then ParityItem(ParseDecimal(l[..i]), l[i + 8..])
    else Nothing
  }

  function Add(r: Reading, item: Item): Reading {
    match item
    case Nothing => r
    case Parity(n, m) => r.(parity := r.parity + [(n, m)])
    case Content(p) => r.(content := r.content + [p])
    case Data(t, m) => r.(data := r.data + [(t, m)])
    case Exclude(p) => r.(excludes := r.excludes + [p])
  }

  function ReadLines(lines: seq<string>): Reading {
    if lines == [] then EMPTY else Add(ReadLines(lines[..|lines| - 1]), ParseLine(lines[|lines| - 1]))
  }

  function Read(text: string): Reading {
    ReadLines(Lines(text))
  }

  function ParityPairs(ps: seq<ParityEntry>): seq<(nat, string)> {
    seq(|ps|, i requires 0 <= i < |ps| => (ps[i].index, ps[i].mountPoint))
  }

  function DataPairs(ds: seq<DataEntry>): seq<(string, string)> {
    seq(|ds|, i requires 0 <= i < |ds| => (ds[i].tag, ds[i].mountPoint))
  }

  /** The fields of a configuration that the printers write. */
  function Printed(cfg: Config): Reading {
    Reading(ParityPairs(cfg.parity), DataPairs(cfg.data), cfg.contentFiles, cfg.excludes)
  }

  // ---------------------------------------------------------------- one line

  lemma {:induction false} ReadsParityLine(p: ParityEntry)
    ensures ParseLine(ParityLine(p)) == Parity(p.index, p.mountPoint)
  {
    var path := p.mountPoint + PARITY_FILE;
    assert path[..|p.mountPoint|] == p.mountPoint && path[|p.mountPoint|..] == PARITY_FILE;
    if p.index == 1 {
      assert ("parity " + path)[7..] == path;
    } else {
      var d := Decimal(p.index);
      DecimalReadsBack(p.index);
      assert ParityLine(p) == d + ("-parity " + path);
      NumberedLine(d, path);
    }
  }

  lemma {:induction false} NumberedLine(d: string, path: string)
    requires d != "" && forall c | c in d :: IsDigit(c)
    ensures ParseLine(d + ("-parity " + path)) == ParityItem(ParseDecimal(d), path)
  {
    var l := d + ("-parity " + path);
    assert IsDigit(d[0]) && l[0] == d[0];
    OtherFirst(l);
    assert l[|d|] == '-';
    var i := IndexOf(l, '-');
    assert forall k | 0 <= k < |d| :: l[k] == d[k] && d[k] in d;
    assert i == |d|;
    assert l[..i] == d && l[i..] == "-parity " + path && l[i + 8..] == path;
  }

  /** Only the four keywords begin with their letters, so a line beginning otherwise is at most a numbered one. */
  lemma OtherFirst(l: string)
    requires l == "" || l[0] !in {'p', 'c', 'e', 'd'}
    ensures ParseLine(l) == ParseNumbered(l)
  {
    assert "parity "[0] == 'p' && "content "[0] == 'c' && "exclude "[0] == 'e' && "data "[0] == 'd';
  }

  lemma {:induction false} ReadsDataLine(tag: string, mountPoint: string)
    requires ' ' !in tag
    ensures ParseLine(DataLine(tag, mountPoint)) == Data(tag, mountPoint)
  {
    var rest := tag + (" " + mountPoint);
    var l := "data " + rest;
    assert l[0] == 'd' && "parity "[0] == 'p' && "content "[0] == 'c' && "exclude "[0] == 'e';
    assert l[5..] == rest;
    SplitsAtSpace(tag, mountPoint);
  }

  lemma SplitsAtSpace(tag: string, mountPoint: string)
    requires ' ' !in tag
    ensures var rest := tag + (" " + mountPoint); var i := IndexOf(rest, ' ');
      i < |rest| && rest[..i] == tag && rest[i + 1..] == mountPoint
  {
    var rest := tag + (" " + mountPoint);
    assert rest[|tag|] == ' ' && forall k | 0 <= k < |tag| :: rest[k] == tag[k];
    var i := IndexOf(rest, ' ');
    assert i == |tag|;
  }

  lemma ReadsContentLine(x: string)
    ensures ParseLine("content " + x) == Content(x)
  {
    var l := "content " + x;
    assert l[0] == 'c' && "parity "[0] == 'p';
    assert l[8..] == x;
  }

  lemma ReadsExcludeLine(x: string)
    ensures ParseLine("exclude " + x) == Exclude(x)
  {
    var l := "exclude " + x;
    assert l[0] == 'e' && "parity "[0] == 'p' && "content "[0] == 'c';
    assert l[8..] == x;
  }

  /** Blank lines and comments say nothing. */
  lemma ReadsNothing(l: string)
    requires l == "" || l[0] == '#'
    ensures ParseLine(l) == Nothing
  {
    OtherFirst(l);
    var i := IndexOf(l, '-');
    if i > 0 {
      assert l[..i][0] == '#';
      assert '#' in l[..i] && !IsDigit('#');
    }
  }

  // ---------------------------------------------------------------- all lines

  function Merge(a: Reading, b: Reading): Reading {
    Reading(a.parity + b.parity, a.data + b.data, a.content + b.content, a.excludes + b.excludes)
  }

  lemma {:induction false} ReadConcat(a: seq<string>, b: seq<string>)
    ensures ReadLines(a + b) == Merge(ReadLines(a), ReadLines(b))
  {
    if b == [] {
      assert a + b == a;
    } else {
      var init, last := b[..|b| - 1], b[|b| - 1];
      ReadConcat(a, init);
      LastOfConcat(a, b);
      var ra, ri := ReadLines(a), ReadLines(init);
      match ParseLine(last) {
        case Nothing =>
        case Parity(n, m) => assert ra.parity + (ri.parity + [(n, m)]) == ra.parity + ri.parity + [(n, m)];
        case Content(p) => assert ra.content + (ri.content + [p]) == ra.content + ri.content + [p];
        case Data(t, m) => assert ra.data + (ri.data + [(t, m)]) == ra.data + ri.data + [(t, m)];
        case Exclude(p) => assert ra.excludes + (ri.excludes + [p]) == ra.excludes + ri.excludes + [p];
      }
    }
  }

  lemma ReadSnoc(lines: seq<string>, l: string)
    ensures ReadLines(lines + [l]) == Add(ReadLines(lines), ParseLine(l))
  {
    assert (lines + [l])[..|lines|] == lines;
  }

  lemma {:induction false} ReadsParityLines(ps: seq<ParityEntry>)
    ensures ReadLines(ParityLines(ps)) == EMPTY.(parity := ParityPairs(ps))
  {
    if ps != [] {
      var init, last := ps[..|ps| - 1], ps[|ps| - 1];
      ParitySnoc(ps);
      calc {
        ReadLines(ParityLines(ps));
        { ReadSnoc(ParityLines(init), ParityLine(last)); }
        Add(ReadLines(ParityLines(init)), ParseLine(ParityLine(last)));
        { ReadsParityLines(init); ReadsParityLine(last); }
        EMPTY.(parity := ParityPairs(init) + [(last.index, last.mountPoint)]);
      }
    }
  }

  lemma ParitySnoc(ps: seq<ParityEntry>)
    requires ps != []
    ensures var init, last := ps[..|ps| - 1], ps[|ps| - 1];
      && ParityLines(ps) == ParityLines(init) + [ParityLine(last)]
      && ParityPairs(ps) == ParityPairs(init) + [(last.index, last.mountPoint)]
  {
  }

  lemma {:induction false} ReadsDataLines(ds: seq<DataEntry>)
    requires forall i | 0 <= i < |ds| :: ' ' !in ds[i].tag
    ensures ReadLines(DataLines(ds)) == EMPTY.(data := DataPairs(ds))
  {
    if ds != [] {
      var init, last := ds[..|ds| - 1], ds[|ds| - 1];
      DataSnoc(ds);
      calc {
        ReadLines(DataLines(ds));
        { ReadSnoc(DataLines(init), DataLine(last.tag, last.mountPoint)); }
        Add(ReadLines(DataLines(init)), ParseLine(DataLine(last.tag, last.mountPoint)));
        { ReadsDataLines(init); ReadsDataLine(last.tag, last.mountPoint); }
        EMPTY.(data := DataPairs(init) + [(last.tag, last.mountPoint)]);
      }
    }
  }

  lemma DataSnoc(ds: seq<DataEntry>)
    requires ds != []
    ensures var init, last := ds[..|ds| - 1], ds[|ds| - 1];
      && DataLines(ds) == DataLines(init) + [DataLine(last.tag, last.mountPoint)]
      && DataPairs(ds) == DataPairs(init) + [(last.tag, last.mountPoint)]
  {
  }

  lemma PrefixedSnoc(keyword: string, items: seq<string>)
    requires items != []
    ensures var init, last := items[..|items| - 1], items[|items| - 1];
      Prefixed(keyword, items) == Prefixed(keyword, init) + [keyword + last] && items == init + [last]
  {
  }

  lemma {:induction false} ReadsContentLines(items: seq<string>)
    ensures ReadLines(Prefixed("content ", items)) == EMPTY.(content := items)
  {
    if items != [] {
      var init, last := items[..|items| - 1], items[|items| - 1];
      PrefixedSnoc("content ", items);
      ReadsContentLines(init);
      ReadsContentLine(last);
      ReadSnoc(Prefixed("content ", init), "content " + last);
    }
  }

  lemma {:induction false} ReadsExcludeLines(items: seq<string>)
    ensures ReadLines(Prefixed("exclude ", items)) == EMPTY.(excludes := items)
  {
    if items != [] {
      var init, last := items[..|items| - 1], items[|items| - 1];
      PrefixedSnoc("exclude ", items);
      ReadsExcludeLines(init);
      ReadsExcludeLine(last);
      ReadSnoc(Prefixed("exclude ", init), "exclude " + last);
    }
  }

  lemma {:induction false} ReadsConfLines(cfg: Config)
    requires forall i | 0 <= i < |cfg.data| :: ' ' !in cfg.data[i].tag
    ensures ReadLines(ConfLines(cfg)) == Printed(cfg)
  {
    HeadingSaysNothing();
    ReadsParityLines(cfg.parity);
    ReadsContentLines(cfg.contentFiles);
    ReadsDataLines(cfg.data);
    ReadsExcludeLines(cfg.excludes);
    ReadSections([HEADER, ""], [""], ParityLines(cfg.parity), Prefixed("content ", cfg.contentFiles),
                 DataLines(cfg.data), Prefixed("exclude ", cfg.excludes));
    MergeParts(ParityPairs(cfg.parity), cfg.contentFiles, DataPairs(cfg.data), cfg.excludes);
  }

  lemma MergeParts(p: seq<(nat, string)>, c: seq<string>, d: seq<(string, string)>, e: seq<string>)
    ensures Merge(Merge(Merge(EMPTY.(parity := p), EMPTY.(content := c)), EMPTY.(data := d)), EMPTY.(excludes := e)) == Reading(p, d, c, e)
  {
  }

  lemma HeadingSaysNothing()
    ensures ReadLines([HEADER, ""]) == EMPTY && ReadLines([""]) == EMPTY
  {
    HeaderIsComment();
    CommentSaysNothing(HEADER);
  }

  lemma CommentSaysNothing(h: string)
    requires h != "" && h[0] == '#'
    ensures ReadLines([h, ""]) == EMPTY && ReadLines([""]) == EMPTY
  {
    ReadsNothing("");
    ReadsNothing(h);
    ReadSnoc([], h);
    ReadSnoc([h], "");
    ReadSnoc([], "");
    assert [] + [h] == [h] && [h] + [""] == [h, ""] && [] + [""] == [""];
  }

  lemma ReadSections(h: seq<string>, gap: seq<string>, p: seq<string>, c: seq<string>, d: seq<string>, e: seq<string>)
    requires ReadLines(h) == EMPTY && ReadLines(gap) == EMPTY
    ensures ReadLines(h + p + gap + c + gap + d + gap + e)
         == Merge(Merge(Merge(ReadLines(p), ReadLines(c)), ReadLines(d)), ReadLines(e))
  {
    ReadConcat(h, p);
    MergeEmpty(ReadLines(p));
    ReadAfterGap(h + p, gap, c);
    ReadAfterGap(h + p + gap + c, gap, d);
    ReadAfterGap(h + p + gap + c + gap + d, gap, e);
  }

  lemma ReadAfterGap(a: seq<string>, gap: seq<string>, b: seq<string>)
    requires ReadLines(gap) == EMPTY
    ensures ReadLines(a + gap + b) == Merge(ReadLines(a), ReadLines(b))
  {
    ReadConcat(a, gap);
    ReadConcat(a + gap, b);
    MergeEmpty(ReadLines(a));
  }

  lemma MergeEmpty(r: Reading)
    ensures Merge(EMPTY, r) == r && Merge(r, EMPTY) == r
  {
  }

  // ---------------------------------------------------------------- the round trip

  /** No printed field holds a newline. */
  ghost predicate Printable(cfg: Config) {
    && (forall i | 0 <= i < |cfg.parity| :: NoNewline(cfg.parity[i].mountPoint))
    && (forall i | 0 <= i < |cfg.data| :: NoNewline(cfg.data[i].tag) && NoNewline(cfg.data[i].mountPoint))
    && (forall i | 0 <= i < |cfg.contentFiles| :: NoNewline(cfg.contentFiles[i]))
    && (forall i | 0 <= i < |cfg.excludes| :: NoNewline(cfg.excludes[i]))
  }

  ghost predicate PlainLabels(cfg: Config) {
    forall i | 0 <= i < |cfg.data| :: ' ' !in cfg.data[i].tag
  }

  lemma {:induction false} PrintableLines(cfg: Config)
    requires Printable(cfg)
    ensures forall l | l in ConfLines(cfg) :: NoNewline(l)
  {
    forall i | 0 <= i < |cfg.parity|
      ensures NoNewline(ParityLine(cfg.parity[i]))
    {
      DecimalReadsBack(cfg.parity[i].index);
    }
    forall l | l in ConfLines(cfg)
      ensures NoNewline(l)
    {
      if l in ParityLines(cfg.parity) {
      } else if l in Prefixed("content ", cfg.contentFiles) {
      } else if l in DataLines(cfg.data) {
      } else if l in Prefixed("exclude ", cfg.excludes) {
      } else {
        assert l in [HEADER, ""];
      }
    }
  }

  /** Every field the reader produces is free of newlines. */
  ghost predicate CleanReading(r: Reading) {
    && (forall i | 0 <= i < |r.parity| :: NoNewline(r.parity[i].1))
    && (forall i | 0 <= i < |r.data| :: NoNewline(r.data[i].0) && NoNewline(r.data[i].1))
    && (forall i | 0 <= i < |r.content| :: NoNewline(r.content[i]))
    && (forall i | 0 <= i < |r.excludes| :: NoNewline(r.excludes[i]))
  }

  lemma {:induction false} ReadingIsClean(lines: seq<string>)
    requires forall i | 0 <= i < |lines| :: NoNewline(lines[i])
    ensures CleanReading(ReadLines(lines))
  {
    if lines != [] {
      ReadingIsClean(lines[..|lines| - 1]);
      assert NoNewline(lines[|lines| - 1]);
    }
  }

  /** With labels free of spaces, the text reads back as what was printed exactly when no printed field holds a newline. */
  lemma {:induction false} ReadsBackIff(cfg: Config)
    requires PlainLabels(cfg)
    ensures Read(Unlines(ConfLines(cfg))) == Printed(cfg) <==> Printable(cfg)
  {
    if Printable(cfg) {
      PrintableLines(cfg);
      LinesOfUnlines(ConfLines(cfg));
      ReadsConfLines(cfg);
    } else {
      var text := Unlines(ConfLines(cfg));
      LinesHaveNoNewline(text);
      ReadingIsClean(Lines(text));
      var r := Printed(cfg);
      if i :| 0 <= i < |cfg.parity| && !NoNewline(cfg.parity[i].mountPoint) {
        assert r.parity[i].1 == cfg.parity[i].mountPoint;
      } else if i :| 0 <= i < |cfg.data| && !(NoNewline(cfg.data[i].tag) && NoNewline(cfg.data[i].mountPoint)) {
        assert r.data[i] == (cfg.data[i].tag, cfg.data[i].mountPoint);
      }
    }
  }

  /** Two printable configurations that differ in a printed field never print alike. */
  lemma {:induction false} PrintingIsInjective(a: Config, b: Config)
    requires PlainLabels(a) && PlainLabels(b) && Printable(a) && Printable(b)
    requires Unlines(ConfLines(a)) == Unlines(ConfLines(b))
    ensures Printed(a) == Printed(b)
  {
    ReadsBackIff(a);
    ReadsBackIff(b);
  }

  /** Newlines do break it: one line holding a newline prints like two lines. */
  lemma NewlinesPrintAlike(x: string, y: string)
    ensures Unlines([x + ("\n" + y)]) == Unlines([x, y])
  {
    var joined := x + ("\n" + y);
    UnlinesSnoc([], joined);
    UnlinesSnoc([], x);
    UnlinesSnoc([x], y);
    assert [] + [joined] == [joined] && [] + [x] == [x] && [x] + [y] == [x, y];
    calc {
      Unlines([x, y]);
      (x + "\n") + y + "\n";
      joined + "\n";
      Unlines([joined]);
    }
  }

  /** A built configuration reads back as parities 1..n, labels d1..dm, contents and excludes. */
  method PublishSnapraidConf(spec: ArraySpec, data: seq<Disk>, parity: seq<Disk>) returns (conf: string)
    requires forall d | d in data + parity :: NoNewline(d.spec.mountPoint)
    requires spec.snapraid.Some? ==> forall x | x in spec.snapraid.value.contentFiles + spec.snapraid.value.excludePatterns :: NoNewline(x)
    ensures var r := Read(conf);
      && r.parity == seq(|parity|, i requires 0 <= i < |parity| => (i + 1, parity[i].spec.mountPoint))
      && r.data == seq(|data|, i requires 0 <= i < |data| => ("d" + Decimal(i + 1), data[i].spec.mountPoint))
      && (if spec.snapraid.Some? && spec.snapraid.value.contentFiles != []
          then r.content == spec.snapraid.value.contentFiles
          else r.content == seq(|data|, i requires 0 <= i < |data| => data[i].spec.mountPoint + "/.snapraid.content"))
      && r.excludes == (if spec.snapraid.Some? then spec.snapraid.value.excludePatterns else [])
  {
    var cfg := BuildSnapraidConfig(spec, data, parity);
    conf := RenderSnapraidConf(cfg);
    BuiltIsPrintable(spec, data, parity, cfg);
    ReadsBackIff(cfg);
  }

  lemma BuiltIsPrintable(spec: ArraySpec, data: seq<Disk>, parity: seq<Disk>, cfg: Config)
    requires forall d | d in data + parity :: NoNewline(d.spec.mountPoint)
    requires spec.snapraid.Some? ==> forall x | x in spec.snapraid.value.contentFiles + spec.snapraid.value.excludePatterns :: NoNewline(x)
    requires |cfg.parity| == |parity| && |cfg.data| == |data|
    requires forall i | 0 <= i < |parity| :: cfg.parity[i].mountPoint == parity[i].spec.mountPoint
    requires forall i | 0 <= i < |data| :: cfg.data[i].tag == Label(i) && cfg.data[i].mountPoint == data[i].spec.mountPoint
    requires cfg.excludes == if spec.snapraid.Some? then spec.snapraid.value.excludePatterns else []
    requires if spec.snapraid.Some? && spec.snapraid.value.contentFiles != []
             then cfg.contentFiles == spec.snapraid.value.contentFiles
             else |cfg.contentFiles| == |data| && forall i | 0 <= i < |data| :: cfg.contentFiles[i] == data[i].spec.mountPoint + "/.snapraid.content"
    ensures PlainLabels(cfg) && Printable(cfg)
  {
    forall i | 0 <= i < |data|
      ensures ' ' !in cfg.data[i].tag && NoNewline(cfg.data[i].tag) && NoNewline(cfg.data[i].mountPoint)
    {
      LabelIsPlain(i);
      assert data[i] in data + parity;
    }
    forall i | 0 <= i < |parity|
      ensures NoNewline(cfg.parity[i].mountPoint)
    {
      assert parity[i] in data + parity;
    }
    if spec.snapraid.Some? {
      assert forall x | x in spec.snapraid.value.contentFiles || x in spec.snapraid.value.excludePatterns ::
               x in spec.snapraid.value.contentFiles + spec.snapraid.value.excludePatterns;
    }
  }
}
