/** From the lines of a .po file to look-ups in the compiled .mo file. */
module Catalog {
  import opened Wrappers
  import opened Bytes
  import Utf8
  import opened MoFile
  import opened MoCompiler
  import opened PoParser

  datatype CompileError = Po(po: PoError) | Mo(mo: MoError)

  /** `compile_po_file`, given the lines of the file. */
  method CompilePoFile(lines: seq<string>, literal: Literal, big: bool)
    returns (keys: seq<Message>, r: Result<seq<Byte>, CompileError>)
    ensures match Parsed(lines, literal) {
              case Err(e) => r == Err(Po(e))
              case Ok(entries) =>
                && IsKeyOrder(keys, entries.Keys) && (forall i :: 0 <= i < |keys| ==> keys[i] in entries)
                && r == if !AllEncodable(entries) then Err(Mo(NotEncodable))
                        else if !Fits(keys, Values(keys, entries)) then Err(Mo(TooLarge))
                        else Ok(Compiled(keys, Values(keys, entries), big))
            }
  {
    var parsed := ParsePo(lines, literal);
    if parsed.Err? {
      return [], Err(Po(parsed.error));
    }
    var built;
    keys, built := BuildMo(parsed.value, big);
    match built {
      case Ok(file) => r := Ok(file);
      case Err(e) => r := Err(Mo(e));
    }
  }

  /** End to end: the file compiled from supported blocks answers every id with the string of the last block
    * kept for it.
    */
  lemma CompiledBlocksAnswer(blocks: seq<Block>, tail: seq<string>, literal: Literal, keys: seq<Message>, big: bool,
                             k: nat)
    requires AllLayout(tail) && AllSupported(blocks, literal) && LastKept(blocks, false, literal, k)
    requires var entries := Reading(map[], blocks, false, literal);
             && IsKeyOrder(keys, entries.Keys) && (forall i :: 0 <= i < |keys| ==> keys[i] in entries)
             && Fits(keys, Values(keys, entries))
    ensures Parsed(AllLines(blocks, tail), literal) == Ok(Reading(map[], blocks, false, literal))
    ensures var file := Compiled(keys, Values(keys, Reading(map[], blocks, false, literal)), big);
            && WellFormed(file, big)
            && Lookup(file, big, Utf8.Encode(IdOf(blocks[k], literal))) == Some(Utf8.Encode(StrOf(blocks[k], literal)))
  {
    ParserReadsBlocks(blocks, tail, literal);
    LastBlockWins(map[], blocks, false, literal, k);
    LookupIsTheCatalogue(Reading(map[], blocks, false, literal), keys, big, Utf8.Encode(IdOf(blocks[k], literal)));
  }

  lemma AbsentIsNotFound(entries: map<Message, Message>, keys: seq<Message>, big: bool, id: Message)
    requires IsKeyOrder(keys, entries.Keys) && (forall i :: 0 <= i < |keys| ==> keys[i] in entries)
    requires Fits(keys, Values(keys, entries)) && id !in entries
    ensures WellFormed(Compiled(keys, Values(keys, entries), big), big)
    ensures Lookup(Compiled(keys, Values(keys, entries), big), big, Utf8.Encode(id)) == None
  {
    forall k | k in entries
      ensures Utf8.Encode(k) != Utf8.Encode(id)
    {
      Utf8.EncodeReflectsOrder(k, id);
    }
    LookupIsTheCatalogue(entries, keys, big, Utf8.Encode(id));
  }

  /** And an id is answered with nothing if every block for it is dropped, or if there is none. */
  lemma DroppedBlocksAnswerNothing(blocks: seq<Block>, tail: seq<string>, literal: Literal, keys: seq<Message>,
                                   big: bool, id: Message)
    requires AllLayout(tail) && AllSupported(blocks, literal) && AllDropped(blocks, false, literal, id, 0)
    requires var entries := Reading(map[], blocks, false, literal);
             && IsKeyOrder(keys, entries.Keys) && (forall i :: 0 <= i < |keys| ==> keys[i] in entries)
             && Fits(keys, Values(keys, entries))
    ensures Parsed(AllLines(blocks, tail), literal) == Ok(Reading(map[], blocks, false, literal))
    ensures var file := Compiled(keys, Values(keys, Reading(map[], blocks, false, literal)), big);
            WellFormed(file, big) && Lookup(file, big, Utf8.Encode(id)) == None
  {
    var entries := Reading(map[], blocks, false, literal);
    ParserReadsBlocks(blocks, tail, literal);
    OthersKeep(map[], blocks, false, literal, id);
    AbsentIsNotFound(entries, keys, big, id);
  }
}
