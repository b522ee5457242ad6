/** The equity memo of best_action.py: the module-global dict EQUITY_CACHE
    (key -> equity), its pickle file, and the key derivation get_cache_key.
    The global becomes one object of class Cache; the file becomes a value
    the load reads and the save produces. */
module EquityCache {
  import opened Common
  import opened Text

  /** What the pickle file holds when it is read: nothing (the file does not
      exist), something that fails to unpickle, or a snapshot of a cache. */
  datatype CacheFile = Missing | Unreadable | Snapshot(entries: map<string, real>)

  /** How an attempt to write the file ends: written, `open` failed (the
      file is untouched), or `pickle.dump` failed after `open` truncated
      the file. */
  datatype WriteOutcome = Written | OpenFailed | DumpFailed

  /** The cache after load_equity_cache, given the cache before it. */
  function LoadedEntries(file: CacheFile, current: map<string, real>): map<string, real>
  {
    match file
    case Missing => current
    case Unreadable => map[]
    case Snapshot(m) => m
  }

  /** The file after save_equity_cache, given the file before it. */
  function SavedFile(entries: map<string, real>, outcome: WriteOutcome, previous: CacheFile): CacheFile
  {
    match outcome
    case Written => Snapshot(entries)
    case OpenFailed => previous
    case DumpFailed => Unreadable
  }

  /** A successful save followed by a load, in this process or a fresh one,
      gives back exactly the saved cache. */
  lemma SaveThenLoad(entries: map<string, real>, previous: CacheFile, current: map<string, real>)
    ensures LoadedEntries(SavedFile(entries, Written, previous), current) == entries
  {
  }

  /** A load never fails: it keeps the cache when there is no file, empties
      it when the file cannot be read, and otherwise takes the file's
      contents. */
  lemma LoadOutcomes(file: CacheFile, current: map<string, real>)
    ensures file == Missing ==> LoadedEntries(file, current) == current
    ensures file == Unreadable ==> LoadedEntries(file, current) == map[]
    ensures file.Snapshot? ==> LoadedEntries(file, current) == file.entries
  {
  }

  /** The memo EQUITY_CACHE. */
  class Cache {
    var entries: map<string, real>

    /** `EQUITY_CACHE = {}` at import time. */
    constructor ()
      ensures entries == map[]
    {
      entries := map[];
    }

    /** load_equity_cache: never raises; the three outcomes of reading. */
    method Load(file: CacheFile)
      modifies this
      ensures entries == LoadedEntries(file, old(entries))
    {
      match file {
        case Missing =>
        case Unreadable =>
          entries := map[];
        case Snapshot(m) =>
          entries := m;
      }
    }

    /** save_equity_cache: never raises and leaves the cache as it is; `ok`
        is false exactly when the error message would be printed. */
    method Save(outcome: WriteOutcome, previous: CacheFile) returns (file: CacheFile, ok: bool)
      ensures file == SavedFile(entries, outcome, previous)
      ensures ok <==> outcome == Written
      ensures ok ==> LoadedEntries(file, map[]) == entries
    {
      match outcome {
        case Written =>
          file, ok := Snapshot(entries), true;
        case OpenFailed =>
          file, ok := previous, false;
        case DumpFailed =>
          file, ok := Unreadable, false;
      }
    }
  }

  // -----------------------------------------------------------------------
  // get_cache_key

  /** Python's repr of a list of strings, "['a', 'b']"; card codes are
      digit strings, so no quote or backslash needs escaping. */
  function ListRepr(xs: seq<string>): string
  {
    "[" + Items(xs) + "]"
  }

  function Items(xs: seq<string>): string
  {
    if xs == [] then ""
    else if |xs| == 1 then "'" + xs[0] + "'"
    else "'" + xs[0] + "', " + Items(xs[1..])
  }

  /** The text hashed by get_cache_key:
      f"{sorted(hand)}_{sorted(board)}_{active}". */
  function KeyText(hand: seq<string>, board: seq<string>, active: int): string
  {
    ListRepr(SortStrings(hand)) + "_" + ListRepr(SortStrings(board)) + "_" + IntToString(active)
  }

  /** get_cache_key: the digest (md5 hexdigest, kept abstract) of KeyText. */
  function CacheKey(hand: seq<string>, board: seq<string>, active: int, md5: string -> string): string
  {
    md5(KeyText(hand, board, active))
  }

  /** The key does not depend on the order in which the hand or the board
      cards are listed. */
  lemma CacheKeyOrderIndependent(hand1: seq<string>, hand2: seq<string>,
                                 board1: seq<string>, board2: seq<string>,
                                 active: int, md5: string -> string)
    requires multiset(hand1) == multiset(hand2)
    requires multiset(board1) == multiset(board2)
    ensures CacheKey(hand1, board1, active, md5) == CacheKey(hand2, board2, active, md5)
  {
    SortStringsPermutationInvariant(hand1, hand2);
    SortStringsPermutationInvariant(board1, board2);
  }

  /** The number of active players is part of the hashed text: the same
      cards with different counts give different texts. */
  lemma KeyTextSeparatesActive(hand: seq<string>, board: seq<string>, a1: int, a2: int)
    requires KeyText(hand, board, a1) == KeyText(hand, board, a2)
    ensures a1 == a2
  {
    var prefix := ListRepr(SortStrings(hand)) + "_" + ListRepr(SortStrings(board)) + "_";
    assert KeyText(hand, board, a1) == prefix + IntToString(a1);
    assert KeyText(hand, board, a2) == prefix + IntToString(a2);
    assert IntToString(a1) == KeyText(hand, board, a1)[|prefix|..];
    assert IntToString(a2) == KeyText(hand, board, a2)[|prefix|..];
    IntToStringInjective(a1, a2);
  }
}
