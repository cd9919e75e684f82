/** The navigation history of a bot: an append-only log of URL strings. */
module Navigation {

  /** The entry `Current` reports for a log: the last one, or "" when the log is empty. */
  function LastOr(log: seq<string>): (c: string)
    ensures log == [] ==> c == ""
    ensures log != [] ==> c == log[|log| - 1]
  {
    if |log| == 0 then "" else log[|log| - 1]
  }

  class History {
    /** The visited URLs in visiting order, duplicates included. */
    var entries: seq<string>

    /** The zero value `&History{}`: no entries yet. */
    constructor ()
      ensures entries == []
      ensures Current() == ""
    {
      entries := [];
    }

    /** The recorded URLs, oldest first. */
    function Entries(): (r: seq<string>)
      reads this
      ensures r == entries
    {
      entries
    }

    /** The most recent URL, or "" when nothing has been recorded. */
    function Current(): (c: string)
      reads this
      ensures entries == [] ==> c == ""
      ensures entries != [] ==> c == entries[|entries| - 1]
    {
      LastOr(entries)
    }

    /** Records one more URL at the end; earlier entries stay as they were. */
    method Add(entry: string)
      modifies this
      ensures entries == old(entries) + [entry]
      ensures |entries| == |old(entries)| + 1
      ensures old(entries) <= entries
      ensures Current() == entry
    {
      entries := entries + [entry];
    }
  }
}
