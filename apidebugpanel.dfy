/**
  The API debug panel (Frontend/src/components/ApiDebugPanel.tsx): the colour of a log entry's
  status badge and the window of recent log entries it lists.
*/
module ApiDebugPanel {
  import opened Wrappers
  import opened Seqs

  /** `getStatusColor`: gray without a status (or status 0), green for 2xx, yellow for 4xx, red otherwise. */
  function StatusColor(status: Option<int>): (c: string)
    ensures c == "bg-gray-500" <==> status.None? || status.value == 0
    ensures c == "bg-green-600" <==> status.Some? && 200 <= status.value < 300
    ensures c == "bg-yellow-600" <==> status.Some? && 400 <= status.value < 500
    ensures c == "bg-red-600" <==> status.Some? && status.value != 0 && !(200 <= status.value < 300) && !(400 <= status.value < 500)
  {
    if status.None? || status.value == 0 then "bg-gray-500"
    else if 200 <= status.value < 300 then "bg-green-600"
    else if 400 <= status.value < 500 then "bg-yellow-600"
    else "bg-red-600"
  }

  /** `logs.slice(-10).reverse()`. */
  function RecentLogs<T>(logs: seq<T>): seq<T> {
    Reverse(logs[|logs| - Min(10, |logs|)..])
  }

  /**
    The window holds the last min(10, |logs|) entries, newest first: its k-th entry is the k-th
    newest log, so the first is the latest. The logs themselves are not changed.
  */
  lemma RecentLogsNewestFirst<T>(logs: seq<T>)
    ensures |RecentLogs(logs)| == Min(10, |logs|)
    ensures forall k :: 0 <= k < |RecentLogs(logs)| ==> RecentLogs(logs)[k] == logs[|logs| - 1 - k]
  {
    var tail := logs[|logs| - Min(10, |logs|)..];
    forall k | 0 <= k < |tail| ensures RecentLogs(logs)[k] == logs[|logs| - 1 - k] {
      ReverseAt(tail, k);
    }
  }
}
