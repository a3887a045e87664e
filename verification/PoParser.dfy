/** Reading the supported subset of .po files line by line. */
module PoParser {
  import opened Wrappers
  import opened Text = Text
  import Utf8

  type Message = Utf8.Text

  /** `ast.literal_eval` on one quoted piece; None stands for an exception. */
  type Literal = string -> Option<Message>

  datatype PoError = UnsupportedLine(raw: string) | BadLiteral(raw: string)

  // ---- Lines

  datatype Line =
    | Blank
    | Comment(fuzzy: bool)
    | MsgId(piece: string)
    | MsgStr(piece: string)
    | More(piece: string)
    | Other

  predicate Contains(s: string, part: string) {
    StartsWith(s, part) || (s != "" && Contains(s[1..], part))
  }

  function Classify(raw: string): Line {
    var line := Strip(raw);
    if line == "" then Blank
    else if StartsWith(line, "#") then Comment(StartsWith(line, "#,") && Contains(line, "fuzzy"))
    else if StartsWith(line, "msgid ") then MsgId(Strip(line[6..]))
    else if StartsWith(line, "msgstr ") then MsgStr(Strip(line[7..]))
    else if StartsWith(line, "\"") then More(Strip(line))
    else Other
  }

  // ---- The parser's variables

  datatype Section = NoSection | IdSection | StrSection

  datatype State = State(entries: map<Message, Message>, msgid: Option<Message>, msgstr: Option<Message>,
                         section: Section, fuzzy: bool, flagsFuzzy: bool)

  const START := State(map[], None, None, NoSection, false, false)

  /** The entry that is complete so far, added to the others if it is translated. */
  function Flushed(s: State): map<Message, Message> {
    if s.msgid.Some? && s.msgstr.Some? && ((s.msgstr.value != [] && !s.fuzzy) || s.msgid.value == [])
    then s.entries[s.msgid.value := s.msgstr.value] else s.entries
  }

  function Flush(s: State): State {
    s.(entries := Flushed(s), msgid := None, msgstr := None, fuzzy := false)
  }

  /** What one line does. */
  function Next(s: State, raw: string, literal: Literal): Result<State, PoError> {
    match Classify(raw)
    case Blank => Ok(Flush(s).(section := NoSection))
    case Comment(fuzzy) => Ok(s.(flagsFuzzy := s.flagsFuzzy || fuzzy))
    case MsgId(piece) =>
      (match literal(piece)
       case None => Err(BadLiteral(raw))
       case Some(m) =>
         Ok(Flush(s).(fuzzy := s.flagsFuzzy, flagsFuzzy := false, msgid := Some(m), section := IdSection)))
    case MsgStr(piece) =>
      (match literal(piece)
       case None => Err(BadLiteral(raw))
       case Some(m) => Ok(s.(msgstr := Some(m), section := StrSection)))
    case More(piece) =>
      if s.section.NoSection? then Ok(s)
      else
        (match literal(piece)
         case None => Err(BadLiteral(raw))
         case Some(m) =>
           if s.section.IdSection? && s.msgid.Some? then Ok(s.(msgid := Some(s.msgid.value + m)))
           else if s.section.StrSection? && s.msgstr.Some? then Ok(s.(msgstr := Some(s.msgstr.value + m)))
           else Ok(s))
    case Other => Err(UnsupportedLine(raw))
  }

  function Run(s: State, lines: seq<string>, literal: Literal): Result<State, PoError>
    decreases lines
  {
    if lines == [] then Ok(s)
    else
      match Next(s, lines[0], literal)
      case Ok(t) => Run(t, lines[1..], literal)
      case Err(e) => Err(e)
  }

  /** The piece is there to be appended to whenever a section is open. */
  predicate SectionOpen(s: State) {
    (s.section.IdSection? ==> s.msgid.Some?) && (s.section.StrSection? ==> s.msgstr.Some?)
  }

  function Parsed(lines: seq<string>, literal: Literal): Result<map<Message, Message>, PoError> {
    match Run(START, lines, literal)
    case Ok(s) => Ok(Flushed(s))
    case Err(e) => Err(e)
  }

  method ParsePo(lines: seq<string>, literal: Literal) returns (r: Result<map<Message, Message>, PoError>)
    ensures r == Parsed(lines, literal)
  {
    var entries: map<Message, Message> := map[];
    var msgid: Option<Message>, msgstr: Option<Message> := None, None;
    var section := NoSection;
    var fuzzy, flagsFuzzy := false, false;
    for i := 0 to |lines|
      invariant SectionOpen(State(entries, msgid, msgstr, section, fuzzy, flagsFuzzy))
      invariant Run(START, lines, literal)
        == Run(State(entries, msgid, msgstr, section, fuzzy, flagsFuzzy), lines[i..], literal)
    {
      assert lines[i..][0] == lines[i] && lines[i..][1..] == lines[i + 1..];
      var line := Strip(lines[i]);
      if line == "" {
        entries := Flushed(State(entries, msgid, msgstr, section, fuzzy, flagsFuzzy));
        msgid, msgstr, fuzzy := None, None, false;
        section := NoSection;
        continue;
      }
      if StartsWith(line, "#") {
        if StartsWith(line, "#,") && Contains(line, "fuzzy") {
          flagsFuzzy := true;
        }
        continue;
      }
      if StartsWith(line, "msgid ") {
        entries := Flushed(State(entries, msgid, msgstr, section, fuzzy, flagsFuzzy));
        msgid, msgstr, fuzzy := None, None, false;
        fuzzy := flagsFuzzy;
        flagsFuzzy := false;
        msgid := literal(Strip(line[6..]));
        if msgid.None? {
          return Err(BadLiteral(lines[i]));
        }
        section := IdSection;
      } else if StartsWith(line, "msgstr ") {
        msgstr := literal(Strip(line[7..]));
        if msgstr.None? {
          return Err(BadLiteral(lines[i]));
        }
        section := StrSection;
      } else if StartsWith(line, "\"") {
        if section.IdSection? {
          var more := literal(Strip(line));
          if more.None? {
            return Err(BadLiteral(lines[i]));
          }
          msgid := Some(msgid.value + more.value);
        } else if section.StrSection? {
          var more := literal(Strip(line));
          if more.None? {
            return Err(BadLiteral(lines[i]));
          }
          msgstr := Some(msgstr.value + more.value);
        }
      } else {
        return Err(UnsupportedLine(lines[i]));
      }
    }
    r := Ok(Flushed(State(entries, msgid, msgstr, section, fuzzy, flagsFuzzy)));
  }

  /** A text that parses has only supported lines. */
  lemma {:induction false} UnsupportedLineFails(s: State, lines: seq<string>, i: nat, literal: Literal)
    requires i < |lines| && Classify(lines[i]).Other?
    ensures Run(s, lines, literal).Err?
    decreases lines
  {
    if i > 0 && Next(s, lines[0], literal).Ok? {
      UnsupportedLineFails(Next(s, lines[0], literal).value, lines[1..], i - 1, literal);
    }
  }

  // ---- Entry blocks

  /** Blank lines and comments, a msgid with its continuation, a msgstr with its continuation; comments may
    * stand anywhere, blank lines only in front.
    */
  datatype Block = Block(front: seq<string>, idLine: string, idMore: seq<string>, strLine: string, strMore: seq<string>)

  predicate IsLayout(raw: string) {
    Classify(raw).Blank? || Classify(raw).Comment?
  }

  predicate IsContinuation(raw: string, literal: Literal) {
    Classify(raw).Comment? || (Classify(raw).More? && literal(Classify(raw).piece).Some?)
  }

  predicate AllLayout(lines: seq<string>) {
    forall i :: 0 <= i < |lines| ==> IsLayout(lines[i])
  }

  predicate AllContinuation(lines: seq<string>, literal: Literal) {
    forall i :: 0 <= i < |lines| ==> IsContinuation(lines[i], literal)
  }

  predicate Supported(b: Block, literal: Literal) {
    && AllLayout(b.front)
    && Classify(b.idLine).MsgId? && literal(Classify(b.idLine).piece).Some?
    && AllContinuation(b.idMore, literal)
    && Classify(b.strLine).MsgStr? && literal(Classify(b.strLine).piece).Some?
    && AllContinuation(b.strMore, literal)
  }

  function LinesOf(b: Block): seq<string> {
    b.front + (([b.idLine] + b.idMore) + ([b.strLine] + b.strMore))
  }

  function AllLines(blocks: seq<Block>, tail: seq<string>): seq<string> {
    if blocks == [] then tail else LinesOf(blocks[0]) + AllLines(blocks[1..], tail)
  }

  /** The quoted pieces among the lines, joined. */
  function Joined(lines: seq<string>, literal: Literal): Message
    requires AllContinuation(lines, literal)
  {
    if lines == [] then []
    else
      (if Classify(lines[0]).More? then literal(Classify(lines[0]).piece).value else [])
      + Joined(lines[1..], literal)
  }

  function IdOf(b: Block, literal: Literal): Message
    requires Supported(b, literal)
  {
    literal(Classify(b.idLine).piece).value + Joined(b.idMore, literal)
  }

  function StrOf(b: Block, literal: Literal): Message
    requires Supported(b, literal)
  {
    literal(Classify(b.strLine).piece).value + Joined(b.strMore, literal)
  }

  /** A fuzzy flag comment is among the lines. */
  predicate HasFuzzy(lines: seq<string>) {
    exists i :: 0 <= i < |lines| && Classify(lines[i]) == Comment(true)
  }

  /** Untranslated and fuzzy entries are dropped, except the header.  `flagged` says that a fuzzy flag stands
    * between the previous msgid and this block.
    */
  predicate Dropped(b: Block, flagged: bool, literal: Literal)
    requires Supported(b, literal)
  {
    IdOf(b, literal) != [] && (StrOf(b, literal) == [] || flagged || HasFuzzy(b.front))
  }

  /** A fuzzy flag inside a block counts for the next one. */
  predicate FlagsNext(b: Block) {
    HasFuzzy(b.idMore + b.strMore)
  }

  predicate AllSupported(blocks: seq<Block>, literal: Literal) {
    forall i :: 0 <= i < |blocks| ==> Supported(blocks[i], literal)
  }

  function WithBlock(entries: map<Message, Message>, b: Block, flagged: bool, literal: Literal): map<Message, Message>
    requires Supported(b, literal)
  {
    if Dropped(b, flagged, literal) then entries else entries[IdOf(b, literal) := StrOf(b, literal)]
  }

  /** The catalogue the blocks stand for. */
  function Reading(entries: map<Message, Message>, blocks: seq<Block>, flagged: bool, literal: Literal)
    : map<Message, Message>
    requires AllSupported(blocks, literal)
    decreases blocks
  {
    if blocks == [] then entries
    else Reading(WithBlock(entries, blocks[0], flagged, literal), blocks[1..], FlagsNext(blocks[0]), literal)
  }

  // ---- Line by line is block by block

  lemma {:induction false} RunConcat(s: State, a: seq<string>, b: seq<string>, literal: Literal)
    requires Run(s, a, literal).Ok?
    ensures Run(s, a + b, literal) == Run(Run(s, a, literal).value, b, literal)
    decreases a
  {
    if a == [] {
      assert a + b == b;
    } else {
      assert (a + b)[0] == a[0] && (a + b)[1..] == a[1..] + b;
      var next := Next(s, a[0], literal);
      assert Run(s, a, literal) == Run(next.value, a[1..], literal);
      RunConcat(next.value, a[1..], b, literal);
    }
  }

  lemma HasFuzzyFirst(lines: seq<string>)
    requires lines != []
    ensures HasFuzzy(lines) <==> Classify(lines[0]) == Comment(true) || HasFuzzy(lines[1..])
  {
    assert forall i :: 0 <= i < |lines| - 1 ==> lines[1..][i] == lines[i + 1];
    if HasFuzzy(lines) {
      var i :| 0 <= i < |lines| && Classify(lines[i]) == Comment(true);
      assert i == 0 || lines[1..][i - 1] == lines[i];
    }
  }

  lemma {:induction false} LayoutLines(s: State, lines: seq<string>, literal: Literal)
    requires AllLayout(lines)
    ensures var r := Run(s, lines, literal);
            r.Ok? && Flushed(r.value) == Flushed(s) && r.value.flagsFuzzy == (s.flagsFuzzy || HasFuzzy(lines))
    decreases lines
  {
    if lines != [] {
      assert IsLayout(lines[0]);
      HasFuzzyFirst(lines);
      LayoutLines(Next(s, lines[0], literal).value, lines[1..], literal);
    }
  }

  lemma {:induction false} IdLines(s: State, lines: seq<string>, literal: Literal)
    requires AllContinuation(lines, literal) && s.section.IdSection? && s.msgid.Some?
    ensures Run(s, lines, literal)
              == Ok(s.(msgid := Some(s.msgid.value + Joined(lines, literal)),
                       flagsFuzzy := s.flagsFuzzy || HasFuzzy(lines)))
    decreases lines
  {
    if lines == [] {
      assert s.msgid.value + [] == s.msgid.value;
    } else {
      assert IsContinuation(lines[0], literal);
      HasFuzzyFirst(lines);
      IdLines(Next(s, lines[0], literal).value, lines[1..], literal);
      Associates(s.msgid.value, lines, literal);
    }
  }

  lemma {:induction false} StrLines(s: State, lines: seq<string>, literal: Literal)
    requires AllContinuation(lines, literal) && s.section.StrSection? && s.msgstr.Some?
    ensures Run(s, lines, literal)
              == Ok(s.(msgstr := Some(s.msgstr.value + Joined(lines, literal)),
                       flagsFuzzy := s.flagsFuzzy || HasFuzzy(lines)))
    decreases lines
  {
    if lines == [] {
      assert s.msgstr.value + [] == s.msgstr.value;
    } else {
      assert IsContinuation(lines[0], literal);
      HasFuzzyFirst(lines);
      StrLines(Next(s, lines[0], literal).value, lines[1..], literal);
      Associates(s.msgstr.value, lines, literal);
    }
  }

  lemma Associates(m: Message, lines: seq<string>, literal: Literal)
    requires lines != [] && AllContinuation(lines, literal)
    ensures Classify(lines[0]).More? ==>
              (m + literal(Classify(lines[0]).piece).value) + Joined(lines[1..], literal) == m + Joined(lines, literal)
    ensures !Classify(lines[0]).More? ==> m + Joined(lines[1..], literal) == m + Joined(lines, literal)
  {
    if !Classify(lines[0]).More? {
      assert [] + Joined(lines[1..], literal) == Joined(lines[1..], literal);
    }
  }

  /** The msgstr line and its continuation. */
  lemma StrPart(s: State, b: Block, literal: Literal)
    requires Supported(b, literal)
    ensures Run(s, [b.strLine] + b.strMore, literal)
              == Ok(s.(msgstr := Some(StrOf(b, literal)), section := StrSection,
                       flagsFuzzy := s.flagsFuzzy || HasFuzzy(b.strMore)))
  {
    assert ([b.strLine] + b.strMore)[1..] == b.strMore;
    StrLines(Next(s, b.strLine, literal).value, b.strMore, literal);
  }

  /** The msgid line and its continuation. */
  lemma IdPart(s: State, b: Block, literal: Literal)
    requires Supported(b, literal)
    ensures Run(s, [b.idLine] + b.idMore, literal)
              == Ok(Flush(s).(msgid := Some(IdOf(b, literal)), section := IdSection, fuzzy := s.flagsFuzzy,
                              flagsFuzzy := HasFuzzy(b.idMore)))
  {
    assert ([b.idLine] + b.idMore)[1..] == b.idMore;
    IdLines(Next(s, b.idLine, literal).value, b.idMore, literal);
  }

  /** One block, wherever the parser stands. */
  lemma OneBlock(s: State, b: Block, literal: Literal)
    requires Supported(b, literal)
    ensures var r := Run(s, LinesOf(b), literal);
            && r.Ok? && r.value.flagsFuzzy == FlagsNext(b)
            && Flushed(r.value) == WithBlock(Flushed(s), b, s.flagsFuzzy, literal)
  {
    LayoutLines(s, b.front, literal);
    var s0 := Run(s, b.front, literal).value;
    RunConcat(s, b.front, ([b.idLine] + b.idMore) + ([b.strLine] + b.strMore), literal);
    IdPart(s0, b, literal);
    var s1 := Run(s0, [b.idLine] + b.idMore, literal).value;
    RunConcat(s0, [b.idLine] + b.idMore, [b.strLine] + b.strMore, literal);
    StrPart(s1, b, literal);
    HasFuzzyConcat(b.idMore, b.strMore);
  }

  lemma HasFuzzyConcat(a: seq<string>, b: seq<string>)
    ensures HasFuzzy(a + b) <==> HasFuzzy(a) || HasFuzzy(b)
  {
    if HasFuzzy(a) {
      var i :| 0 <= i < |a| && Classify(a[i]) == Comment(true);
      assert (a + b)[i] == a[i];
    }
    if HasFuzzy(b) {
      var i :| 0 <= i < |b| && Classify(b[i]) == Comment(true);
      assert (a + b)[|a| + i] == b[i];
    }
  }

  lemma {:induction false} BlocksFrom(s: State, blocks: seq<Block>, tail: seq<string>, literal: Literal)
    requires AllLayout(tail) && AllSupported(blocks, literal)
    ensures var r := Run(s, AllLines(blocks, tail), literal);
            r.Ok? && Flushed(r.value) == Reading(Flushed(s), blocks, s.flagsFuzzy, literal)
    decreases blocks
  {
    if blocks == [] {
      LayoutLines(s, tail, literal);
    } else {
      OneBlock(s, blocks[0], literal);
      RunConcat(s, LinesOf(blocks[0]), AllLines(blocks[1..], tail), literal);
      BlocksFrom(Run(s, LinesOf(blocks[0]), literal).value, blocks[1..], tail, literal);
    }
  }

  /** For every text made of supported blocks the line-by-line parser gives the block-by-block reading. */
  lemma {:induction false} ParserReadsBlocks(blocks: seq<Block>, tail: seq<string>, literal: Literal)
    requires AllLayout(tail) && AllSupported(blocks, literal)
    ensures Parsed(AllLines(blocks, tail), literal) == Ok(Reading(map[], blocks, false, literal))
  {
    BlocksFrom(START, blocks, tail, literal);
  }

  /** The flag that reaches block `k`. */
  predicate FlagBefore(blocks: seq<Block>, flagged: bool, k: nat)
    requires k < |blocks|
  {
    if k == 0 then flagged else FlagsNext(blocks[k - 1])
  }

  predicate NotKept(blocks: seq<Block>, flagged: bool, literal: Literal, id: Message, i: nat)
    requires AllSupported(blocks, literal) && i < |blocks|
  {
    IdOf(blocks[i], literal) == id ==> Dropped(blocks[i], FlagBefore(blocks, flagged, i), literal)
  }

  /** From block `k` on every block for this id is dropped. */
  predicate AllDropped(blocks: seq<Block>, flagged: bool, literal: Literal, id: Message, k: nat)
    requires AllSupported(blocks, literal)
  {
    forall i: nat :: k <= i < |blocks| ==> NotKept(blocks, flagged, literal, id, i)
  }

  lemma AllDroppedInRest(blocks: seq<Block>, flagged: bool, literal: Literal, id: Message, k: nat)
    requires blocks != [] && AllSupported(blocks, literal) && AllDropped(blocks, flagged, literal, id, k + 1)
    ensures AllDropped(blocks[1..], FlagsNext(blocks[0]), literal, id, k)
  {
    forall i: nat | k <= i < |blocks| - 1
      ensures NotKept(blocks[1..], FlagsNext(blocks[0]), literal, id, i)
    {
      assert NotKept(blocks, flagged, literal, id, i + 1);
    }
  }

  /** Block `k` is the last one kept for its id. */
  predicate LastKept(blocks: seq<Block>, flagged: bool, literal: Literal, k: nat)
    requires AllSupported(blocks, literal)
  {
    && k < |blocks| && !Dropped(blocks[k], FlagBefore(blocks, flagged, k), literal)
    && AllDropped(blocks, flagged, literal, IdOf(blocks[k], literal), k + 1)
  }

  predicate ReadAs(r: map<Message, Message>, b: Block, literal: Literal)
    requires Supported(b, literal)
  {
    IdOf(b, literal) in r && r[IdOf(b, literal)] == StrOf(b, literal)
  }

  lemma FirstBlockWins(entries: map<Message, Message>, blocks: seq<Block>, flagged: bool, literal: Literal)
    requires AllSupported(blocks, literal) && LastKept(blocks, flagged, literal, 0)
    ensures ReadAs(Reading(entries, blocks, flagged, literal), blocks[0], literal)
  {
    AllDroppedInRest(blocks, flagged, literal, IdOf(blocks[0], literal), 0);
    OthersKeep(WithBlock(entries, blocks[0], flagged, literal), blocks[1..], FlagsNext(blocks[0]), literal,
               IdOf(blocks[0], literal));
  }

  /** What the first `k` blocks leave is where the others start. */
  lemma {:induction false} ReadingSplits(entries: map<Message, Message>, blocks: seq<Block>, flagged: bool,
                                         literal: Literal, k: nat)
    returns (before: map<Message, Message>)
    requires AllSupported(blocks, literal) && k < |blocks|
    ensures Reading(entries, blocks, flagged, literal)
              == Reading(before, blocks[k..], FlagBefore(blocks, flagged, k), literal)
    decreases k
  {
    if k == 0 {
      before := entries;
      assert blocks[0..] == blocks;
    } else {
      var rest, flag := blocks[1..], FlagsNext(blocks[0]);
      before := ReadingSplits(WithBlock(entries, blocks[0], flagged, literal), rest, flag, literal, k - 1);
      assert rest[k - 1..] == blocks[k..];
      assert FlagBefore(rest, flag, k - 1) == FlagBefore(blocks, flagged, k);
    }
  }

  lemma LastKeptComesFirst(blocks: seq<Block>, flagged: bool, literal: Literal, k: nat)
    requires AllSupported(blocks, literal) && LastKept(blocks, flagged, literal, k)
    ensures LastKept(blocks[k..], FlagBefore(blocks, flagged, k), literal, 0)
  {
    var rest, flag := blocks[k..], FlagBefore(blocks, flagged, k);
    forall i: nat | 1 <= i < |rest|
      ensures NotKept(rest, flag, literal, IdOf(blocks[k], literal), i)
    {
      assert NotKept(blocks, flagged, literal, IdOf(blocks[k], literal), k + i);
    }
  }

  /** A later duplicate wins: the last block that is kept decides what its id is read as. */
  lemma {:induction false} LastBlockWins(entries: map<Message, Message>, blocks: seq<Block>, flagged: bool,
                                         literal: Literal, k: nat)
    requires AllSupported(blocks, literal) && LastKept(blocks, flagged, literal, k)
    ensures ReadAs(Reading(entries, blocks, flagged, literal), blocks[k], literal)
  {
    var before := ReadingSplits(entries, blocks, flagged, literal, k);
    LastKeptComesFirst(blocks, flagged, literal, k);
    FirstBlockWins(before, blocks[k..], FlagBefore(blocks, flagged, k), literal);
  }

  lemma {:induction false} OthersKeep(entries: map<Message, Message>, blocks: seq<Block>, flagged: bool,
                                      literal: Literal, id: Message)
    requires AllSupported(blocks, literal) && AllDropped(blocks, flagged, literal, id, 0)
    ensures var r := Reading(entries, blocks, flagged, literal);
            (id in r <==> id in entries) && (id in entries ==> r[id] == entries[id])
    decreases blocks
  {
    if blocks != [] {
      AllDroppedInRest(blocks, flagged, literal, id, 0);
      assert NotKept(blocks, flagged, literal, id, 0);
      OthersKeep(WithBlock(entries, blocks[0], flagged, literal), blocks[1..], FlagsNext(blocks[0]), literal, id);
    }
  }
}
