/** The alert log behind `api_push` in monitoring/dashboard/app.py: a
    pushed alert goes to the front of the stored list and the list is cut
    to its first 100 entries. The JSON file is a field of the log; reading
    and parsing it are summed up by what the file holds. */
module Dashboard {
  import opened Common
  import opened Records

  const MaxAlerts: nat := 100

  /** What `json.loads(ALERTS_FILE.read_text())` yields: an exception (a
      missing file or text that is not JSON), a JSON list, or another JSON
      document. */
  datatype AlertsFile = Unreadable | AlertList(items: seq<Dict>) | OtherDocument

  /** The stored alert: `request.get_json() or {}`; `None` stands for a
      missing body, and an empty body is falsy as well. */
  function BodyOf(body: Option<Dict>): (b: Dict)
    ensures body.None? ==> b == map[]
    ensures body.Some? ==> b == body.value
  {
    if body.Some? && body.value != map[] then body.value else map[]
  }

  /** `arr.insert(0, body)` followed by `arr[:100]`. */
  function PushList(arr: seq<Dict>, alert: Dict): seq<Dict> {
    ([alert] + arr)[..MinInt(MaxAlerts, |arr| + 1)]
  }

  /** The pushed alert comes first, the list never exceeds 100 entries,
      the earlier alerts follow in their old order, and only the oldest
      beyond the cap are dropped. */
  lemma PushListSpec(arr: seq<Dict>, alert: Dict)
    ensures var r := PushList(arr, alert);
      && |r| <= MaxAlerts && r != []
      && r[0] == alert
      && r[1..] == arr[..MinInt(MaxAlerts - 1, |arr|)]
      && (|arr| < MaxAlerts ==> r == [alert] + arr)
  {
    var r := PushList(arr, alert);
    assert r[1..] == ([alert] + arr)[1..MinInt(MaxAlerts, |arr| + 1)];
    assert ([alert] + arr)[1..] == arr;
  }

  /** The list after pushing `alerts` one after the other. */
  function PushAll(arr: seq<Dict>, alerts: seq<Dict>): seq<Dict>
    decreases |alerts|
  {
    if alerts == [] then arr else PushAll(PushList(arr, alerts[0]), alerts[1..])
  }

  function Reverse<T>(s: seq<T>): (r: seq<T>)
    ensures |r| == |s|
    decreases |s|
  {
    if s == [] then [] else Reverse(s[1..]) + [s[0]]
  }

  /** Capping after each push is the same as capping once: after a run of
      pushes the log is the newest alert first, back to the oldest, then
      the earlier log, cut to 100 entries. */
  lemma {:induction false} PushAllNewestFirst(arr: seq<Dict>, alerts: seq<Dict>)
    requires alerts != []
    ensures PushAll(arr, alerts) ==
              (Reverse(alerts) + arr)[..MinInt(MaxAlerts, |alerts| + |arr|)]
    decreases |alerts|
  {
    var a0 := alerts[0];
    var arr1 := PushList(arr, a0);
    if |alerts| > 1 {
      PushAllNewestFirst(arr1, alerts[1..]);
      var rest := Reverse(alerts[1..]);
      assert Reverse(alerts) == rest + [a0];
      var n := MinInt(MaxAlerts, |alerts[1..]| + |arr1|);
      var m := MinInt(MaxAlerts, |alerts| + |arr|);
      assert n == m;
      assert arr1 == ([a0] + arr)[..MinInt(MaxAlerts, |arr| + 1)];
      forall i | 0 <= i < m
        ensures (rest + arr1)[i] == (rest + [a0] + arr)[i]
      {
        if i >= |rest| {
          assert (rest + arr1)[i] == arr1[i - |rest|];
          assert (rest + [a0] + arr)[i] == ([a0] + arr)[i - |rest|];
        }
      }
      assert (rest + arr1)[..m] == (rest + [a0] + arr)[..m];
    } else {
      assert alerts[1..] == [];
      assert Reverse(alerts) == [a0];
    }
  }

  /** The dashboard's alert store. */
  class AlertLog {
    var file: AlertsFile

    constructor(file: AlertsFile)
      ensures this.file == file
    {
      this.file := file;
    }

    /** `api_push()`: an unreadable file or one that does not parse counts
        as an empty list; a JSON document other than a list has no
        `insert`, so the request fails with the file unchanged. */
    method ApiPush(body: Option<Dict>) returns (ok: bool)
      modifies this
      ensures ok <==> !old(file).OtherDocument?
      ensures !ok ==> file == old(file)
      ensures ok ==> file == AlertList(PushList(if old(file).AlertList? then old(file).items else [], BodyOf(body)))
    {
      var alert := BodyOf(body);
      var arr: seq<Dict>;
      match file {
        case Unreadable => arr := [];
        case AlertList(items) => arr := items;
        case OtherDocument => return false;
      }
      arr := [alert] + arr;
      file := AlertList(arr[..MinInt(MaxAlerts, |arr|)]);
      ok := true;
    }
  }
}
