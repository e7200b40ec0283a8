/**
 * The persisted record of a GNOME tracker (`data.json`): the start time of
 * the running cycle and the history log. The log may be missing from a
 * record read back from disk.
 */
module Store {
  import opened Wrappers

  datatype Record = Record(startTime: Option<int>, history: Option<seq<int>>)
  {
    /** The log, read as empty when the record has none. */
    function Entries(): seq<int>
    {
      history.GetOr([])
    }
  }

  /** `{ startTime: null, history: [] }`: the record before loading, and after a failed load. */
  const Default: Record := Record(None, Some([]))

  /**
   * `_loadData`: the parsed file replaces the record when there is one;
   * a missing or unreadable file leaves the default record.
   */
  function Load(stored: Option<Record>): (r: Record)
    ensures stored.None? ==> r.startTime.None? && r.Entries() == []
    ensures stored.Some? ==> r == stored.value
  {
    stored.GetOr(Default)
  }
}
