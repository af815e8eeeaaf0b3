/** The `communicationLogs` slice of the client store: the logs fetched, the subset on
    display (`filteredLogs`), the analytics, and the request flags. */
module CommunicationLogSlice {
  import opened Common
  import IdLists

  datatype LogRow = LogRow(id: Option<string>, status: string)

  /** The analytics object the server sends, kept as the per-status counts. */
  datatype AnalyticsRow = AnalyticsRow(total: int, byStatus: map<string, int>)

  function LogId(l: LogRow): Option<string> { l.id }

  class CommunicationLogSlice {
    var logs: seq<LogRow>
    var filteredLogs: seq<LogRow>
    var analytics: Option<AnalyticsRow>
    var loading: bool
    var error: Option<string>

    predicate Settled()
      reads this
    {
      !loading && error == None
    }

    constructor()
      ensures logs == [] && filteredLogs == [] && analytics == None && Settled()
    {
      logs := [];
      filteredLogs := [];
      analytics := None;
      loading := false;
      error := None;
    }

    method SetLoading(b: bool)
      modifies this
      ensures loading == b
      ensures error == (if b then None else old(error))
      ensures logs == old(logs) && filteredLogs == old(filteredLogs) && analytics == old(analytics)
    {
      loading := b;
      if b {
        error := None;
      }
    }

    method SetError(e: Option<string>)
      modifies this
      ensures error == e && !loading
      ensures logs == old(logs) && filteredLogs == old(filteredLogs) && analytics == old(analytics)
    {
      error := e;
      loading := false;
    }

    /** Both lists become the payload. */
    method SetLogs(payload: seq<LogRow>)
      modifies this
      ensures logs == payload && filteredLogs == payload
      ensures analytics == old(analytics) && Settled()
    {
      logs := payload;
      filteredLogs := payload;
      loading := false;
      error := None;
    }

    /** Only the displayed subset changes. */
    method SetFilteredLogs(payload: seq<LogRow>)
      modifies this
      ensures filteredLogs == payload && logs == old(logs)
      ensures analytics == old(analytics) && Settled()
    {
      filteredLogs := payload;
      loading := false;
      error := None;
    }

    method AddLog(l: LogRow)
      modifies this
      ensures logs == old(logs) + [l] && filteredLogs == old(filteredLogs) + [l]
      ensures analytics == old(analytics) && Settled()
    {
      logs := logs + [l];
      filteredLogs := filteredLogs + [l];
      loading := false;
      error := None;
    }

    /** Each list has its first entry with the payload's id replaced on its own; a list
        without that id keeps its contents. */
    method UpdateLogStatus(l: LogRow)
      modifies this
      ensures logs == IdLists.ReplaceFirst(old(logs), l, LogId)
      ensures filteredLogs == IdLists.ReplaceFirst(old(filteredLogs), l, LogId)
      ensures analytics == old(analytics) && Settled()
    {
      var logIndex := IdLists.FindIndex(logs, l.id, LogId);
      if logIndex != -1 {
        logs := logs[logIndex := l];
      }
      var filteredLogIndex := IdLists.FindIndex(filteredLogs, l.id, LogId);
      if filteredLogIndex != -1 {
        filteredLogs := filteredLogs[filteredLogIndex := l];
      }
      loading := false;
      error := None;
    }

    method RemoveLog(id: Option<string>)
      modifies this
      ensures logs == IdLists.RemoveId(old(logs), id, LogId)
      ensures filteredLogs == IdLists.RemoveId(old(filteredLogs), id, LogId)
      ensures analytics == old(analytics) && Settled()
    {
      logs := IdLists.RemoveId(logs, id, LogId);
      filteredLogs := IdLists.RemoveId(filteredLogs, id, LogId);
      loading := false;
      error := None;
    }

    method SetAnalytics(a: Option<AnalyticsRow>)
      modifies this
      ensures analytics == a && logs == old(logs) && filteredLogs == old(filteredLogs) && Settled()
    {
      analytics := a;
      loading := false;
      error := None;
    }
  }
}
