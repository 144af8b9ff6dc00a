/**
 * The bot's entry module (coins.py): the `sorted_id_list` configuration check
 * that turns the allow-listed channel entries into a sorted list of ids, the
 * global command error handler and the global check that refuses direct messages.
 */
module Coins {
  import opened Wrappers
  import opened Text
  import opened Seqs

  // ----- sorted_id_list -----

  /** The entries `sorted_id_list` looks at: the non-empty ones, in order. */
  function NonEmpty(value: seq<string>): (r: seq<string>)
    ensures |r| <= |value|
    ensures [] !in r
  {
    if value == [] then []
    else
      var last := value[|value| - 1];
      NonEmpty(value[..|value| - 1]) + (if last != [] then [last] else [])
  }

  /**
   * Each non-empty entry is kept as often as it occurs and the empty ones are
   * dropped, so there are as many kept entries as non-empty ones.
   */
  lemma {:induction false} NonEmptyCount(value: seq<string>)
    ensures multiset(NonEmpty(value)) == multiset(value)[[] := 0]
    ensures |NonEmpty(value)| == |value| - multiset(value)[[]]
    decreases |value|
  {
    if value != [] {
      var prefix, last := value[..|value| - 1], value[|value| - 1];
      NonEmptyCount(prefix);
      assert value == prefix + [last];
      assert multiset(value) == multiset(prefix) + multiset([last]);
    }
  }

  /** The kept entries are exactly the non-empty ones. */
  lemma {:induction false} NonEmptyMembers(value: seq<string>, e: string)
    ensures e in NonEmpty(value) <==> e in value && e != []
    decreases |value|
  {
    if value != [] {
      var prefix := value[..|value| - 1];
      NonEmptyMembers(prefix, e);
      assert value == prefix + [value[|value| - 1]];
    }
  }

  /** `int(entry.strip())`: None where the source raises ValueError. */
  function ParseEntry(entry: string): (r: Option<int>)
    ensures AllSpace(entry) ==> r.None?
  {
    ParseInt(Strip(entry))
  }

  /**
   * `parse` applied to each entry in turn: the values in order, or the first
   * entry that does not parse, where the loop stops.
   */
  function ParseEach(entries: seq<string>, parse: string -> Option<int>): (r: Result<seq<int>, string>)
    ensures r.Ok? ==> |r.value| == |entries|
  {
    if entries == [] then Ok([])
    else
      var last := entries[|entries| - 1];
      match ParseEach(entries[..|entries| - 1], parse)
      case Err(bad) => Err(bad)
      case Ok(ids) =>
        match parse(last)
        case None => Err(last)
        case Some(id) => Ok(ids + [id])
  }

  /**
   * Parsing succeeds exactly when every entry parses, and then gives each entry's
   * value in place; a failure names an entry that does not parse.
   */
  lemma {:induction false} ParseEachMeaning(entries: seq<string>, parse: string -> Option<int>)
    ensures ParseEach(entries, parse).Ok? <==> forall e :: e in entries ==> parse(e).Some?
    ensures ParseEach(entries, parse).Ok? ==>
              forall k :: 0 <= k < |entries| ==> Some(ParseEach(entries, parse).value[k]) == parse(entries[k])
    ensures ParseEach(entries, parse).Err? ==>
              ParseEach(entries, parse).error in entries && parse(ParseEach(entries, parse).error).None?
    decreases |entries|
  {
    if entries != [] {
      var prefix := entries[..|entries| - 1];
      var last := entries[|entries| - 1];
      ParseEachMeaning(prefix, parse);
      assert entries == prefix + [last];
    }
  }

  /** Extending the entries by one extends the non-empty ones by it, if it is non-empty. */
  lemma NonEmptySnoc(value: seq<string>, i: nat)
    requires i < |value|
    ensures value[i] == [] ==> NonEmpty(value[..i + 1]) == NonEmpty(value[..i])
    ensures value[i] != [] ==> NonEmpty(value[..i + 1]) == NonEmpty(value[..i]) + [value[i]]
  {
    assert value[..i + 1][..i] == value[..i];
    if value[i] == [] {
      assert NonEmpty(value[..i]) + [] == NonEmpty(value[..i]);
    }
  }

  /** The loop's step: an empty entry is skipped, a non-empty one appends its value or fails. */
  lemma NextEntry(value: seq<string>, i: nat, parse: string -> Option<int>)
    requires i < |value|
    requires ParseEach(NonEmpty(value[..i]), parse).Ok?
    ensures value[i] == [] ==> ParseEach(NonEmpty(value[..i + 1]), parse) == ParseEach(NonEmpty(value[..i]), parse)
    ensures value[i] != [] && parse(value[i]).Some? ==>
              ParseEach(NonEmpty(value[..i + 1]), parse) ==
              Ok(ParseEach(NonEmpty(value[..i]), parse).value + [parse(value[i]).value])
    ensures value[i] != [] && parse(value[i]).None? ==> ParseEach(NonEmpty(value[..i + 1]), parse) == Err(value[i])
  {
    NonEmptySnoc(value, i);
    var kept := NonEmpty(value[..i + 1]);
    if value[i] != [] {
      assert kept == NonEmpty(value[..i]) + [value[i]];
      assert kept[..|kept| - 1] == NonEmpty(value[..i]);
      assert kept[|kept| - 1] == value[i];
    }
  }

  /**
   * Once an entry fails, later entries are never parsed: the failure found in a
   * prefix is the one reported for the whole list.
   */
  lemma {:induction false} FailurePersists(value: seq<string>, j: nat, parse: string -> Option<int>)
    requires j <= |value|
    requires ParseEach(NonEmpty(value[..j]), parse).Err?
    ensures ParseEach(NonEmpty(value), parse) == ParseEach(NonEmpty(value[..j]), parse)
    decreases |value| - j
  {
    if j < |value| {
      NonEmptySnoc(value, j);
      var kept := NonEmpty(value[..j + 1]);
      if value[j] != [] {
        assert kept[..|kept| - 1] == NonEmpty(value[..j]);
      }
      FailurePersists(value, j + 1, parse);
    } else {
      assert value[..j] == value;
    }
  }

  /** A non-empty entry that fails after all earlier ones parsed is the one reported. */
  lemma FirstBadEntry(value: seq<string>, i: nat, parse: string -> Option<int>)
    requires i < |value| && value[i] != []
    requires ParseEach(NonEmpty(value[..i]), parse).Ok? && parse(value[i]).None?
    ensures ParseEach(NonEmpty(value), parse) == Err(value[i])
  {
    NextEntry(value, i, parse);
    FailurePersists(value, i + 1, parse);
  }

  /**
   * `sorted_id_list`: skips empty entries, parses the others after stripping
   * them, and sorts the ids. The first entry that does not parse is reported
   * instead of a list.
   */
  method SortedIdList(value: seq<string>) returns (r: Result<seq<int>, string>)
    ensures r.Err? ==> r == ParseEach(NonEmpty(value), ParseEntry)
    ensures r.Ok? <==> ParseEach(NonEmpty(value), ParseEntry).Ok?
    ensures r.Ok? ==> && Ascending(r.value)
                      && multiset(r.value) == multiset(ParseEach(NonEmpty(value), ParseEntry).value)
                      && |r.value| == |NonEmpty(value)| == |value| - multiset(value)[[]]
  {
    var ids := [];
    for i := 0 to |value|
      invariant ParseEach(NonEmpty(value[..i]), ParseEntry) == Ok(ids)
    {
      var entry := value[i];
      NextEntry(value, i, ParseEntry);
      if |entry| != 0 {
        var id := ParseEntry(entry);
        if id.None? {
          FirstBadEntry(value, i, ParseEntry);
          return Err(entry);
        }
        ids := ids + [id.value];
      }
    }
    assert value[..|value|] == value;
    NonEmptyCount(value);
    return Ok(Sort(ids));
  }

  /** An entry made only of whitespace survives the emptiness test but fails to parse. */
  lemma BlankEntryRejected(value: seq<string>, i: nat)
    requires i < |value| && value[i] != [] && AllSpace(value[i])
    ensures ParseEach(NonEmpty(value), ParseEntry).Err?
  {
    NonEmptyMembers(value, value[i]);
    ParseEachMeaning(NonEmpty(value), ParseEntry);
  }

  // ----- Global command error handler -----

  /** The exception classes `on_command_error` tells apart. */
  datatype CommandError =
    | MissingRequiredArgument
    | TooManyArguments
    | BadArgument
    | CheckFailure
    | Blacklisted
    | CommandNotFound
    | OtherError

  /** What the handler does: an error embed by message key, nothing, or the library's default handler. */
  datatype ErrorResponse =
    | IncorrectCommandUsage(usage: string)
    | BadCommandArguments
    | NoPermissions
    | BlacklistedReply
    | Silent
    | DefaultHandler

  /**
   * `on_command_error`: usage errors show the command's usage, a failed check
   * is reported only for the Admin cog, blacklisted members are told so, unknown
   * commands are ignored, and everything else goes to the default handler.
   */
  function OnCommandError(error: CommandError, cogName: string, usage: string): (r: ErrorResponse)
    ensures r == DefaultHandler <==> error == OtherError
    ensures r == Silent <==> error == CommandNotFound || (error == CheckFailure && cogName != "Admin")
    ensures r == NoPermissions <==> error == CheckFailure && cogName == "Admin"
    ensures r.IncorrectCommandUsage? <==> error == MissingRequiredArgument || error == TooManyArguments
    ensures r.IncorrectCommandUsage? ==> r.usage == usage
    ensures r == BadCommandArguments <==> error == BadArgument
    ensures r == BlacklistedReply <==> error == Blacklisted
  {
    match error
    case MissingRequiredArgument => IncorrectCommandUsage(usage)
    case TooManyArguments => IncorrectCommandUsage(usage)
    case BadArgument => BadCommandArguments
    case CheckFailure => if cogName == "Admin" then NoPermissions else Silent
    case Blacklisted => BlacklistedReply
    case CommandNotFound => Silent
    case OtherError => DefaultHandler
  }

  /** `globally_block_dms`: commands run only inside a guild. */
  function GloballyBlockDms(guild: Option<int>): (allowed: bool)
    ensures allowed <==> guild.Some?
  {
    guild.Some?
  }
}
