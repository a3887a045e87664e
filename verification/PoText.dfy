/** The text of a .po file, as translators write it, and what the parser makes of it. */
module PoText {
  import opened Wrappers
  import opened Text
  import opened Bytes
  import Utf8
  import opened MoFile
  import opened MoCompiler
  import opened PoParser
  import opened Catalog

  // ---- Stripping

  lemma {:induction false} StripRightIsPrefix(s: string) returns (n: nat)
    ensures n <= |s| && StripRight(s) == s[..n]
    ensures n > 0 ==> !IsSpace(s[n - 1])
    ensures forall i :: n <= i < |s| ==> IsSpace(s[i])
  {
    n := |s|;
    if s != [] && IsSpace(s[|s| - 1]) {
      n := StripRightIsPrefix(s[..|s| - 1]);
      assert s[..|s| - 1][..n] == s[..n];
    }
  }

  lemma {:induction false} StripLeftIsSuffix(s: string) returns (n: nat)
    ensures n <= |s| && StripLeft(s) == s[n..]
    ensures n < |s| ==> !IsSpace(s[n])
    ensures forall i :: 0 <= i < n ==> IsSpace(s[i])
  {
    n := 0;
    if s != [] && IsSpace(s[0]) {
      n := StripLeftIsSuffix(s[1..]);
      n := n + 1;
      assert s[1..][n - 1..] == s[n..];
    }
  }

  /** `strip` takes off white space at both ends and nothing else. */
  lemma StripInCharacters(s: string) returns (i: nat, j: nat)
    ensures i <= j <= |s| && Strip(s) == s[i..j]
    ensures forall k :: 0 <= k < i || j <= k < |s| ==> IsSpace(s[k])
    ensures i < j ==> !IsSpace(s[i]) && !IsSpace(s[j - 1])
  {
    i := StripLeftIsSuffix(s);
    j := StripRightIsPrefix(s[i..]);
    j := i + j;
    assert s[i..][..j - i] == s[i..j];
    if i < j {
      assert s[i..][j - i - 1] == s[j - 1];
    }
    assert forall k :: j <= k < |s| ==> s[k] == s[i..][k - i];
  }

  /** The 29 white space characters: tab to carriage return, the four separators and the blank in ASCII, and those
    * beyond it.
    */
  lemma SpaceCharacters(c: char)
    ensures IsSpace(c) <==>
              c as int in {9, 10, 11, 12, 13, 28, 29, 30, 31, 32, 0x85, 0xA0, 0x1680, 0x2000, 0x2001, 0x2002, 0x2003,
                           0x2004, 0x2005, 0x2006, 0x2007, 0x2008, 0x2009, 0x200A, 0x2028, 0x2029, 0x202F, 0x205F,
                           0x3000}
  {
  }

  lemma NothingToStrip(s: string)
    requires s != "" && !IsSpace(s[0]) && !IsSpace(s[|s| - 1])
    ensures Strip(s) == s
  {
  }

  // ---- Single lines

  predicate IsAt(line: string, part: string, i: nat) {
    i + |part| <= |line| && line[i..i + |part|] == part
  }

  lemma {:induction false} ContainsIsAt(line: string, part: string)
    ensures Contains(line, part) <==> exists i: nat :: IsAt(line, part, i)
    decreases |line|
  {
    if StartsWith(line, part) {
      assert IsAt(line, part, 0);
    } else if line != "" {
      ContainsIsAt(line[1..], part);
      forall i: nat
        ensures IsAt(line[1..], part, i) <==> IsAt(line, part, i + 1)
      {
        if i + |part| < |line| {
          assert line[1..][i..i + |part|] == line[i + 1..i + 1 + |part|];
        }
      }
      if i: nat :| IsAt(line, part, i) {
        assert i > 0 && IsAt(line[1..], part, i - 1);
      }
      if i: nat :| IsAt(line[1..], part, i) {
        assert IsAt(line, part, i + 1);
      }
    }
  }

  /** A line that begins "#," and contains "fuzzy". */
  ghost predicate IsFuzzyFlag(line: string) {
    IsAt(line, "#,", 0) && exists i: nat :: IsAt(line, "fuzzy", i)
  }

  /** A blank line or a comment. */
  predicate IsFront(line: string) {
    line == "" || line[0] == '#'
  }

  lemma PrefixHasParts(line: string, n: nat, part: string, i: nat)
    requires n <= |line| && forall k :: n <= k < |line| ==> IsSpace(line[k])
    requires part != "" && !IsSpace(part[|part| - 1])
    ensures IsAt(line[..n], part, i) <==> IsAt(line, part, i)
  {
    if IsAt(line, part, i) {
      assert line[i + |part| - 1] == part[|part| - 1];
      assert line[..n][i..i + |part|] == line[i..i + |part|];
    } else if i + |part| <= n {
      assert line[..n][i..i + |part|] == line[i..i + |part|];
    }
  }

  lemma FrontLine(line: string)
    requires IsFront(line)
    ensures IsLayout(line) && (Classify(line) == Comment(true) <==> IsFuzzyFlag(line))
  {
    if line != "" {
      var n := StripRightIsPrefix(line);
      assert Strip(line) == line[..n];
      assert n > 0;
      ContainsIsAt(line[..n], "fuzzy");
      forall i: nat
        ensures IsAt(line[..n], "fuzzy", i) <==> IsAt(line, "fuzzy", i)
      {
        PrefixHasParts(line, n, "fuzzy", i);
      }
      PrefixHasParts(line, n, "#,", 0);
      assert StartsWith(line[..n], "#,") <==> IsAt(line[..n], "#,", 0);
    }
  }

  predicate IsQuoted(p: string) {
    |p| >= 2 && p[0] == '"' && p[|p| - 1] == '"'
  }

  /** Something in double quotes that is a string literal. */
  predicate IsPiece(p: string, literal: Literal) {
    IsQuoted(p) && literal(p).Some?
  }

  lemma PieceLines(p: string)
    requires IsQuoted(p)
    ensures Classify(p) == More(p)
    ensures Classify("msgid " + p) == MsgId(p)
    ensures Classify("msgstr " + p) == MsgStr(p)
  {
    NothingToStrip(p);
    NothingToStrip("msgid " + p);
    NothingToStrip("msgstr " + p);
    assert ("msgid " + p)[6..] == p && ("msgid " + p)[..6] == "msgid ";
    assert ("msgstr " + p)[7..] == p && ("msgstr " + p)[..7] == "msgstr ";
    assert ("msgstr " + p)[3] != "msgid "[3];
    assert p[..1] == "\"";
  }

  // ---- Entries as they are written

  /** Blank lines and comments, then an id and a string of one or more quoted pieces each. */
  datatype Entry = Entry(front: seq<string>, id: seq<string>, str: seq<string>)

  predicate ArePieces(pieces: seq<string>, literal: Literal) {
    forall i :: 0 <= i < |pieces| ==> IsPiece(pieces[i], literal)
  }

  predicate IsEntry(e: Entry, literal: Literal) {
    && e.id != [] && e.str != [] && (forall i :: 0 <= i < |e.front| ==> IsFront(e.front[i]))
    && ArePieces(e.id, literal) && ArePieces(e.str, literal)
  }

  predicate AreEntries(entries: seq<Entry>, literal: Literal) {
    forall k :: 0 <= k < |entries| ==> IsEntry(entries[k], literal)
  }

  /** Every entry has an id line and a string line. */
  predicate HaveLines(entries: seq<Entry>) {
    forall k :: 0 <= k < |entries| ==> entries[k].id != [] && entries[k].str != []
  }

  function Printed(e: Entry): seq<string>
    requires e.id != [] && e.str != []
  {
    e.front + ["msgid " + e.id[0]] + e.id[1..] + ["msgstr " + e.str[0]] + e.str[1..]
  }

  function PrintedAll(entries: seq<Entry>): seq<string>
    requires HaveLines(entries)
  {
    if entries == [] then [] else Printed(entries[0]) + PrintedAll(entries[1..])
  }

  /** The literals of the pieces, joined. */
  function Unquoted(pieces: seq<string>, literal: Literal): Message
    requires ArePieces(pieces, literal)
  {
    if pieces == [] then []
    else
      assert IsPiece(pieces[0], literal);
      literal(pieces[0]).value + Unquoted(pieces[1..], literal)
  }

  ghost predicate IsFlagged(front: seq<string>) {
    exists i :: 0 <= i < |front| && IsFuzzyFlag(front[i])
  }

  /** The header, and what has a translation that is not marked fuzzy. */
  ghost predicate IsKept(e: Entry, literal: Literal)
    requires IsEntry(e, literal)
  {
    Unquoted(e.id, literal) == [] || (Unquoted(e.str, literal) != [] && !IsFlagged(e.front))
  }

  // ---- An entry is a block

  function BlockOf(e: Entry): Block
    requires e.id != [] && e.str != []
  {
    Block(e.front, "msgid " + e.id[0], e.id[1..], "msgstr " + e.str[0], e.str[1..])
  }

  lemma PiecesContinue(pieces: seq<string>, literal: Literal)
    requires ArePieces(pieces, literal)
    ensures AllContinuation(pieces, literal) && !HasFuzzy(pieces)
  {
    forall i | 0 <= i < |pieces|
      ensures IsContinuation(pieces[i], literal) && Classify(pieces[i]).More?
    {
      PieceLines(pieces[i]);
    }
  }

  lemma {:induction false} JoinedIsUnquoted(pieces: seq<string>, literal: Literal)
    requires ArePieces(pieces, literal)
    ensures AllContinuation(pieces, literal) && Joined(pieces, literal) == Unquoted(pieces, literal)
  {
    PiecesContinue(pieces, literal);
    if pieces != [] {
      PieceLines(pieces[0]);
      JoinedIsUnquoted(pieces[1..], literal);
    }
  }

  lemma FrontIsLayout(front: seq<string>)
    requires forall i :: 0 <= i < |front| ==> IsFront(front[i])
    ensures AllLayout(front) && (HasFuzzy(front) <==> IsFlagged(front))
  {
    forall i | 0 <= i < |front|
      ensures IsLayout(front[i]) && (Classify(front[i]) == Comment(true) <==> IsFuzzyFlag(front[i]))
    {
      FrontLine(front[i]);
    }
  }

  lemma EntryIsBlock(e: Entry, literal: Literal)
    requires IsEntry(e, literal)
    ensures Supported(BlockOf(e), literal)
    ensures IdOf(BlockOf(e), literal) == Unquoted(e.id, literal)
    ensures StrOf(BlockOf(e), literal) == Unquoted(e.str, literal)
    ensures Dropped(BlockOf(e), false, literal) <==> !IsKept(e, literal)
    ensures !FlagsNext(BlockOf(e))
  {
    FrontIsLayout(e.front);
    PieceLines(e.id[0]);
    PieceLines(e.str[0]);
    JoinedIsUnquoted(e.id[1..], literal);
    JoinedIsUnquoted(e.str[1..], literal);
    PiecesContinue(e.id[1..], literal);
    PiecesContinue(e.str[1..], literal);
    HasFuzzyConcat(e.id[1..], e.str[1..]);
  }

  function BlocksOf(entries: seq<Entry>): (r: seq<Block>)
    requires HaveLines(entries)
    ensures |r| == |entries| && forall k :: 0 <= k < |r| ==> r[k] == BlockOf(entries[k])
  {
    if entries == [] then [] else [BlockOf(entries[0])] + BlocksOf(entries[1..])
  }

  lemma EntriesAreBlocks(entries: seq<Entry>, literal: Literal)
    requires AreEntries(entries, literal) && HaveLines(entries)
    ensures AllSupported(BlocksOf(entries), literal)
  {
    var blocks := BlocksOf(entries);
    forall k | 0 <= k < |blocks|
      ensures Supported(blocks[k], literal)
    {
      EntryIsBlock(entries[k], literal);
    }
  }

  lemma PrintedLines(e: Entry)
    requires e.id != [] && e.str != []
    ensures LinesOf(BlockOf(e)) == Printed(e)
  {
  }

  lemma {:induction false} PrintedIsLines(entries: seq<Entry>, tail: seq<string>)
    requires HaveLines(entries)
    ensures AllLines(BlocksOf(entries), tail) == PrintedAll(entries) + tail
  {
    if entries == [] {
      assert [] + tail == tail;
    } else {
      PrintedLines(entries[0]);
      PrintedIsLines(entries[1..], tail);
      assert BlocksOf(entries)[1..] == BlocksOf(entries[1..]);
    }
  }

  // ---- What the parser reads

  ghost predicate KeptFor(entries: seq<Entry>, literal: Literal, id: Message, k: nat)
    requires AreEntries(entries, literal)
  {
    k < |entries| && IsKept(entries[k], literal) && Unquoted(entries[k].id, literal) == id
  }

  /** Entry `k` is the last kept for its id. */
  ghost predicate LastFor(entries: seq<Entry>, literal: Literal, id: Message, k: nat)
    requires AreEntries(entries, literal)
  {
    KeptFor(entries, literal, id, k) && forall j: nat :: j > k ==> !KeptFor(entries, literal, id, j)
  }

  lemma {:induction false} BlockIsDropped(entries: seq<Entry>, literal: Literal, id: Message, k: nat)
    requires AreEntries(entries, literal) && HaveLines(entries) && AllSupported(BlocksOf(entries), literal)
    requires k < |entries|
    ensures NotKept(BlocksOf(entries), false, literal, id, k) <==> !KeptFor(entries, literal, id, k)
    ensures FlagBefore(BlocksOf(entries), false, k) == false
  {
    EntryIsBlock(entries[k], literal);
    if k > 0 {
      EntryIsBlock(entries[k - 1], literal);
    }
  }

  lemma {:induction false} SomeLast(entries: seq<Entry>, literal: Literal, id: Message, k: nat) returns (last: nat)
    requires AreEntries(entries, literal) && KeptFor(entries, literal, id, k)
    ensures LastFor(entries, literal, id, last)
    decreases |entries| - k
  {
    if j: nat :| j > k && KeptFor(entries, literal, id, j) {
      last := SomeLast(entries, literal, id, j);
    } else {
      last := k;
    }
  }

  lemma LastIsRead(entries: seq<Entry>, literal: Literal, id: Message, k: nat)
    requires AreEntries(entries, literal) && HaveLines(entries) && AllSupported(BlocksOf(entries), literal)
    requires LastFor(entries, literal, id, k)
    ensures var m := Reading(map[], BlocksOf(entries), false, literal);
            id in m && m[id] == Unquoted(entries[k].str, literal)
  {
    var blocks := BlocksOf(entries);
    EntryIsBlock(entries[k], literal);
    BlockIsDropped(entries, literal, id, k);
    forall j: nat | k + 1 <= j < |blocks|
      ensures NotKept(blocks, false, literal, id, j)
    {
      BlockIsDropped(entries, literal, id, j);
    }
    assert LastKept(blocks, false, literal, k);
    LastBlockWins(map[], blocks, false, literal, k);
  }

  lemma UnkeptIsNotRead(entries: seq<Entry>, literal: Literal, id: Message)
    requires AreEntries(entries, literal) && HaveLines(entries) && AllSupported(BlocksOf(entries), literal)
    requires forall k: nat :: !KeptFor(entries, literal, id, k)
    ensures id !in Reading(map[], BlocksOf(entries), false, literal)
  {
    var blocks := BlocksOf(entries);
    forall j: nat | 0 <= j < |blocks|
      ensures NotKept(blocks, false, literal, id, j)
    {
      BlockIsDropped(entries, literal, id, j);
    }
    OthersKeep(map[], blocks, false, literal, id);
  }

  /** The parser reads a written file as what was written: exactly the ids of the kept entries, each with the string of
    * the last entry kept for it.
    */
  lemma ParserReadsEntries(entries: seq<Entry>, tail: seq<string>, literal: Literal) returns (m: map<Message, Message>)
    requires AreEntries(entries, literal) && HaveLines(entries) && forall i :: 0 <= i < |tail| ==> IsFront(tail[i])
    ensures Parsed(PrintedAll(entries) + tail, literal) == Ok(m)
    ensures forall id :: id in m <==> exists k: nat :: KeptFor(entries, literal, id, k)
    ensures forall id, k: nat :: LastFor(entries, literal, id, k) ==>
              id in m && m[id] == Unquoted(entries[k].str, literal)
  {
    FrontIsLayout(tail);
    EntriesAreBlocks(entries, literal);
    PrintedIsLines(entries, tail);
    ParserReadsBlocks(BlocksOf(entries), tail, literal);
    m := Reading(map[], BlocksOf(entries), false, literal);
    forall id
      ensures id in m <==> exists k: nat :: KeptFor(entries, literal, id, k)
    {
      if k: nat :| KeptFor(entries, literal, id, k) {
        var last := SomeLast(entries, literal, id, k);
        LastIsRead(entries, literal, id, last);
      } else {
        UnkeptIsNotRead(entries, literal, id);
      }
    }
    forall id, k: nat | LastFor(entries, literal, id, k)
      ensures id in m && m[id] == Unquoted(entries[k].str, literal)
    {
      LastIsRead(entries, literal, id, k);
    }
  }

  /** Two lines are one entry. */
  lemma OneEntry(p: string, q: string, literal: Literal)
    requires IsPiece(p, literal) && IsPiece(q, literal) && literal(q).value != []
    ensures Parsed(["msgid " + p, "msgstr " + q], literal) == Ok(map[literal(p).value := literal(q).value])
  {
    AnyEntry(Entry([], [p], [q]), literal);
    assert Printed(Entry([], [p], [q])) == ["msgid " + p, "msgstr " + q];
    OnePiece(p, literal);
    OnePiece(q, literal);
  }

  lemma OnePiece(p: string, literal: Literal)
    requires IsPiece(p, literal)
    ensures ArePieces([p], literal) && Unquoted([p], literal) == literal(p).value
  {
    assert [p][1..] == [];
    assert literal(p).value + [] == literal(p).value;
  }

  /** A text of one entry is read as that entry if it is kept and as nothing if it is not. */
  lemma AnyEntry(e: Entry, literal: Literal)
    requires IsEntry(e, literal)
    ensures Parsed(Printed(e), literal)
              == Ok(if IsKept(e, literal) then map[Unquoted(e.id, literal) := Unquoted(e.str, literal)] else map[])
  {
    var m := ParserReadsEntries([e], [], literal);
    assert [e][1..] == [];
    assert PrintedAll([e]) + [] == Printed(e);
    var id, str := Unquoted(e.id, literal), Unquoted(e.str, literal);
    if IsKept(e, literal) {
      assert KeptFor([e], literal, id, 0);
      assert LastFor([e], literal, id, 0);
      assert m == map[id := str];
    } else {
      assert m == map[];
    }
  }

  /** An entry after a flag comment with "fuzzy" is dropped, unless it is the header, whatever its string. */
  lemma FuzzyIsDropped(flags: string, i: nat, e: Entry, literal: Literal)
    requires IsEntry(e, literal) && e.front == [flags] && Unquoted(e.id, literal) != []
    requires i + 5 <= |flags| && flags[..2] == "#," && flags[i..i + 5] == "fuzzy"
    ensures Parsed(Printed(e), literal) == Ok(map[])
  {
    AnyEntry(e, literal);
    assert IsAt(flags, "fuzzy", i);
    assert IsFuzzyFlag(e.front[0]);
  }

  /** After any other comment it is kept, also if that comment contains "fuzzy". */
  lemma OtherCommentIsKept(comment: string, e: Entry, literal: Literal)
    requires IsEntry(e, literal) && e.front == [comment] && Unquoted(e.str, literal) != []
    requires |comment| >= 2 && comment[1] != ','
    ensures Parsed(Printed(e), literal) == Ok(map[Unquoted(e.id, literal) := Unquoted(e.str, literal)])
  {
    AnyEntry(e, literal);
    assert comment[..2] != "#,";
  }

  lemma {:induction false} FirstLine(s: State, raw: string, rest: seq<string>, literal: Literal)
    requires Next(s, raw, literal).Ok?
    ensures Run(s, [raw] + rest, literal) == Run(Next(s, raw, literal).value, rest, literal)
  {
    assert ([raw] + rest)[1..] == rest;
  }

  /** An id without a string is forgotten at the next id. */
  lemma {:induction false} IdAloneIsForgotten(p: string, q: string, r: string, literal: Literal)
    requires IsPiece(p, literal) && IsPiece(q, literal) && IsPiece(r, literal) && literal(r).value != []
    ensures Parsed(["msgid " + p, "msgid " + q, "msgstr " + r], literal)
              == Ok(map[literal(q).value := literal(r).value])
  {
    PieceLines(p);
    OneEntry(q, r, literal);
    FirstLine(START, "msgid " + p, ["msgid " + q, "msgstr " + r], literal);
    PieceLines(q);
    var s := Next(START, "msgid " + p, literal).value;
    assert Next(s, "msgid " + q, literal) == Next(START, "msgid " + q, literal);
    FirstLine(s, "msgid " + q, ["msgstr " + r], literal);
    FirstLine(START, "msgid " + q, ["msgstr " + r], literal);
    assert ["msgid " + p] + ["msgid " + q, "msgstr " + r] == ["msgid " + p, "msgid " + q, "msgstr " + r];
    assert ["msgid " + q] + ["msgstr " + r] == ["msgid " + q, "msgstr " + r];
  }

  /** So is a string without an id. */
  lemma {:induction false} StringAloneIsForgotten(r: string, literal: Literal)
    requires IsPiece(r, literal)
    ensures Parsed(["msgstr " + r], literal) == Ok(map[])
  {
    PieceLines(r);
    FirstLine(START, "msgstr " + r, [], literal);
    assert ["msgstr " + r] + [] == ["msgstr " + r];
  }

  /** A piece after a blank line is ignored, wherever it stands. */
  lemma {:induction false} StrayPieceIsIgnored(lines: seq<string>, p: string, literal: Literal)
    requires IsQuoted(p) && Run(START, lines, literal).Ok?
    ensures Parsed(lines + ["", p], literal) == Parsed(lines, literal)
  {
    PieceLines(p);
    var s := Run(START, lines, literal).value;
    RunConcat(START, lines, ["", p], literal);
    FirstLine(s, "", [p], literal);
    FirstLine(Next(s, "", literal).value, p, [], literal);
    assert [""] + [p] == ["", p] && [p] + [] == [p];
  }

  /** A blank line ends an entry: a string after it belongs to no id. */
  lemma {:induction false} BlankEndsEntry(lines: seq<string>, r: string, literal: Literal)
    requires IsPiece(r, literal) && Run(START, lines, literal).Ok?
    ensures Parsed(lines + ["", "msgstr " + r], literal) == Parsed(lines, literal)
  {
    PieceLines(r);
    var s := Run(START, lines, literal).value;
    RunConcat(START, lines, ["", "msgstr " + r], literal);
    FirstLine(s, "", ["msgstr " + r], literal);
    FirstLine(Next(s, "", literal).value, "msgstr " + r, [], literal);
    assert [""] + ["msgstr " + r] == ["", "msgstr " + r] && ["msgstr " + r] + [] == ["msgstr " + r];
  }

  // ---- White space

  predicate IsSpaces(s: string) {
    forall i :: 0 <= i < |s| ==> IsSpace(s[i])
  }

  /** White space around a line, or more of it between a keyword and its piece. */
  ghost predicate IsRespaced(a: string, b: string) {
    || (exists pre, post :: IsSpaces(pre) && IsSpaces(post) && b == pre + (a + post))
    || (exists p, more :: IsQuoted(p) && IsSpaces(more) && a == "msgid " + p && b == "msgid " + (more + p))
    || (exists p, more :: IsQuoted(p) && IsSpaces(more) && a == "msgstr " + p && b == "msgstr " + (more + p))
  }

  lemma {:induction false} LeadingSpaces(pre: string, s: string)
    requires IsSpaces(pre)
    ensures StripLeft(pre + s) == StripLeft(s)
  {
    if pre == "" {
      assert pre + s == s;
    } else {
      assert (pre + s)[1..] == pre[1..] + s;
      LeadingSpaces(pre[1..], s);
    }
  }

  lemma {:induction false} TrailingSpaces(s: string, post: string)
    requires IsSpaces(post)
    ensures StripRight(s + post) == StripRight(s)
  {
    if post == "" {
      assert s + post == s;
    } else {
      assert (s + post)[..|s + post| - 1] == s + post[..|post| - 1];
      TrailingSpaces(s, post[..|post| - 1]);
    }
  }

  lemma {:induction false} SpacesBehind(s: string, post: string)
    requires IsSpaces(post)
    ensures StripLeft(s + post) == if StripLeft(s) == "" then "" else StripLeft(s) + post
  {
    if s == "" {
      assert s + post == post && post + "" == post;
      LeadingSpaces(post, "");
    } else if IsSpace(s[0]) {
      assert (s + post)[1..] == s[1..] + post;
      SpacesBehind(s[1..], post);
    }
  }

  lemma OuterSpaces(pre: string, s: string, post: string)
    requires IsSpaces(pre) && IsSpaces(post)
    ensures Strip(pre + (s + post)) == Strip(s)
  {
    LeadingSpaces(pre, s + post);
    SpacesBehind(s, post);
    TrailingSpaces(StripLeft(s), post);
  }

  lemma SpacesBeforePiece(more: string, p: string)
    requires IsQuoted(p) && IsSpaces(more)
    ensures Classify("msgid " + (more + p)) == MsgId(p) && Classify("msgstr " + (more + p)) == MsgStr(p)
  {
    NothingToStrip(p);
    OuterSpaces(more, p, "");
    assert p + "" == p;
    NothingToStrip("msgid " + (more + p));
    NothingToStrip("msgstr " + (more + p));
    assert ("msgid " + (more + p))[6..] == more + p && ("msgid " + (more + p))[..6] == "msgid ";
    assert ("msgstr " + (more + p))[7..] == more + p && ("msgstr " + (more + p))[..7] == "msgstr ";
    assert ("msgstr " + (more + p))[3] != "msgid "[3];
  }

  lemma RespacedIsSame(a: string, b: string)
    requires IsRespaced(a, b)
    ensures Classify(a) == Classify(b)
  {
    if pre, post :| IsSpaces(pre) && IsSpaces(post) && b == pre + (a + post) {
      OuterSpaces(pre, a, post);
    } else if p, more :| IsQuoted(p) && IsSpaces(more) && a == "msgid " + p && b == "msgid " + (more + p) {
      SpacesBeforePiece(more, p);
      PieceLines(p);
    } else {
      var p, more :| IsQuoted(p) && IsSpaces(more) && a == "msgstr " + p && b == "msgstr " + (more + p);
      SpacesBeforePiece(more, p);
      PieceLines(p);
    }
  }

  lemma NextIsSame(s: State, a: string, b: string, literal: Literal)
    requires Classify(a) == Classify(b)
    ensures Next(s, a, literal).Ok? == Next(s, b, literal).Ok?
    ensures Next(s, a, literal).Ok? ==> Next(s, a, literal) == Next(s, b, literal)
  {
  }

  /** What a text is read as does not depend on such white space. */
  lemma {:induction false} SpacesDoNotMatter(s: State, a: seq<string>, b: seq<string>, literal: Literal)
    requires |a| == |b| && forall i :: 0 <= i < |a| ==> IsRespaced(a[i], b[i])
    ensures Run(s, a, literal).Ok? == Run(s, b, literal).Ok?
    ensures Run(s, a, literal).Ok? ==> Run(s, a, literal) == Run(s, b, literal)
    decreases |a|
  {
    if a != [] {
      assert IsRespaced(a[0], b[0]);
      RespacedIsSame(a[0], b[0]);
      NextIsSame(s, a[0], b[0], literal);
      if Next(s, a[0], literal).Ok? {
        SpacesDoNotMatter(Next(s, a[0], literal).value, a[1..], b[1..], literal);
      }
    }
  }

  lemma RespacedText(a: seq<string>, b: seq<string>, literal: Literal)
    requires |a| == |b| && forall i :: 0 <= i < |a| ==> IsRespaced(a[i], b[i])
    ensures Parsed(a, literal).Ok? == Parsed(b, literal).Ok?
    ensures Parsed(a, literal).Ok? ==> Parsed(a, literal) == Parsed(b, literal)
  {
    SpacesDoNotMatter(START, a, b, literal);
  }

  // ---- What is refused

  /** The parser refuses a line that is neither blank nor a comment nor quoted and begins neither "msgid " nor
    * "msgstr ", such as a context or a plural form.
    */
  lemma OtherLinesFail(lines: seq<string>, i: nat, literal: Literal)
    requires i < |lines| && lines[i] != "" && !IsSpace(lines[i][0]) && lines[i][0] != '#' && lines[i][0] != '"'
    requires !IsAt(lines[i], "msgid ", 0) && !IsAt(lines[i], "msgstr ", 0)
    ensures Parsed(lines, literal).Err?
  {
    var line := lines[i];
    var n := StripRightIsPrefix(line);
    assert Strip(line) == line[..n] && n > 0;
    assert forall part: string :: StartsWith(line[..n], part) ==> IsAt(line, part, 0) by {
      assert forall part: string :: StartsWith(line[..n], part) ==> line[..n][..|part|] == line[..|part|];
    }
    UnsupportedLineFails(START, lines, i, literal);
  }

  /** The first line that fails decides the error: a piece that is no string literal. */
  lemma BadPieceFails(before: seq<string>, p: string, after: seq<string>, literal: Literal)
    requires Run(START, before, literal).Ok? && IsQuoted(p) && literal(p).None?
    ensures Parsed(before + ["msgid " + p] + after, literal) == Err(BadLiteral("msgid " + p))
    ensures Parsed(before + ["msgstr " + p] + after, literal) == Err(BadLiteral("msgstr " + p))
  {
    PieceLines(p);
    FirstFailure(before, "msgid " + p, after, literal);
    FirstFailure(before, "msgstr " + p, after, literal);
  }

  lemma FirstFailure(before: seq<string>, raw: string, after: seq<string>, literal: Literal)
    requires Run(START, before, literal).Ok? && Next(Run(START, before, literal).value, raw, literal).Err?
    ensures Parsed(before + [raw] + after, literal) == Err(Next(Run(START, before, literal).value, raw, literal).error)
  {
    RunConcat(START, before, [raw] + after, literal);
    assert before + [raw] + after == before + ([raw] + after);
  }

  // ---- End to end

  /** The file compiled from a written text answers every id with the string of the last entry kept for it, and every
    * id for which none is kept with nothing.
    */
  lemma CompiledEntriesAnswer(entries: seq<Entry>, tail: seq<string>, literal: Literal, big: bool)
    returns (m: map<Message, Message>)
    requires AreEntries(entries, literal) && HaveLines(entries) && forall i :: 0 <= i < |tail| ==> IsFront(tail[i])
    ensures Parsed(PrintedAll(entries) + tail, literal) == Ok(m)
    ensures forall keys ::
              IsKeyOrder(keys, m.Keys) && (forall i :: 0 <= i < |keys| ==> keys[i] in m)
              && Fits(keys, Values(keys, m)) ==>
                AnswersEntries(Compiled(keys, Values(keys, m), big), big, entries, literal)
  {
    m := ParserReadsEntries(entries, tail, literal);
    forall keys |
      IsKeyOrder(keys, m.Keys) && (forall i :: 0 <= i < |keys| ==> keys[i] in m) && Fits(keys, Values(keys, m))
      ensures AnswersEntries(Compiled(keys, Values(keys, m), big), big, entries, literal)
    {
      FileAnswersEntries(entries, literal, m, keys, big);
    }
  }

  ghost predicate AnswersEntries(file: seq<Byte>, big: bool, entries: seq<Entry>, literal: Literal)
    requires AreEntries(entries, literal)
  {
    && WellFormed(file, big)
    && (forall id, k: nat :: LastFor(entries, literal, id, k) ==>
          Lookup(file, big, Utf8.Encode(id)) == Some(Utf8.Encode(Unquoted(entries[k].str, literal))))
    && (forall id :: (forall k: nat :: !KeptFor(entries, literal, id, k)) ==>
          Lookup(file, big, Utf8.Encode(id)) == None)
  }

  lemma FileAnswersEntries(entries: seq<Entry>, literal: Literal, m: map<Message, Message>, keys: seq<Message>,
                           big: bool)
    requires AreEntries(entries, literal)
    requires forall id :: id in m <==> exists k: nat :: KeptFor(entries, literal, id, k)
    requires forall id, k: nat :: LastFor(entries, literal, id, k) ==>
               id in m && m[id] == Unquoted(entries[k].str, literal)
    requires IsKeyOrder(keys, m.Keys) && (forall i :: 0 <= i < |keys| ==> keys[i] in m) && Fits(keys, Values(keys, m))
    ensures AnswersEntries(Compiled(keys, Values(keys, m), big), big, entries, literal)
  {
    var file := Compiled(keys, Values(keys, m), big);
    LookupIsTheCatalogue(m, keys, big, []);
    forall id, k: nat | LastFor(entries, literal, id, k)
      ensures Lookup(file, big, Utf8.Encode(id)) == Some(Utf8.Encode(Unquoted(entries[k].str, literal)))
    {
      LookupIsTheCatalogue(m, keys, big, Utf8.Encode(id));
    }
    forall id | forall k: nat :: !KeptFor(entries, literal, id, k)
      ensures Lookup(file, big, Utf8.Encode(id)) == None
    {
      AbsentIsNotFound(m, keys, big, id);
    }
  }
}
