/**
 Authorization of WebSocket channels (backend/internal/websocket/channel_auth.go) and the
 subscription test of the hub (backend/internal/websocket/hub.go).
 */
module ChannelAuth {
  import opened Basics
  import opened Text
  import opened Permissions

  const TYPE_POD_LOGS := "pod_logs"
  const TYPE_TASK_PROGRESS := "task_progress"
  const TYPE_CLUSTER_EVENT := "cluster_event"

  /** May a connection with this tree subscribe to the channel? A missing tree may not. */
  predicate AuthorizeChannel(pt: Option<PermissionTree>, channel: string) {
    if pt.None? || channel == "" then false
    else if '*' in channel then false
    else if channel == TYPE_TASK_PROGRESS then HasPerm(pt.value, "backup:list")
    else if channel == TYPE_CLUSTER_EVENT then HasPerm(pt.value, "cluster:list")
    else if TYPE_POD_LOGS + ":" <= channel then
      var parts := Split(channel, ':');
      if |parts| != 4 then false
      else if parts[1] == "" || parts[2] == "" || parts[3] == "" then false
      else if !HasPerm(pt.value, "cluster:list") && !HasPerm(pt.value, "resource:get") then false
      else HasNamespaceScope(pt.value, parts[1], parts[2])
    else false
  }

  /** The two fields of a progress event that decide who may see it. */
  datatype ProgressPayload = ProgressPayload(clusterCode: string, namespace_: string)

  /** `raw` is None when the event is not valid JSON. */
  predicate AuthorizeTaskProgressPayload(pt: Option<PermissionTree>, raw: Option<ProgressPayload>) {
    if !AuthorizeChannel(pt, TYPE_TASK_PROGRESS) then false
    else if raw.None? then false
    else if raw.value.clusterCode == "" then HasClusterScope(pt.value, "")
    else if raw.value.namespace_ == "" || "multi:" <= raw.value.namespace_ then
      HasClusterScope(pt.value, raw.value.clusterCode)
    else HasNamespaceScope(pt.value, raw.value.clusterCode, raw.value.namespace_)
  }

  /** The channel on which the log lines of one pod are sent. */
  function PodLogChannelName(clusterCode: string, namespace_: string, podName: string): string {
    TYPE_POD_LOGS + [':'] + (clusterCode + [':'] + (namespace_ + [':'] + podName))
  }

  /** The hub's test: a literal entry, or an entry ending in '*' whose stem is a prefix. */
  predicate Subscribed(channels: set<string>, channel: string) {
    && channel != ""
    && (channel in channels
        || exists ch | ch in channels :: ch != "" && ch[|ch| - 1] == '*' && ch[..|ch| - 1] <= channel)
  }

  lemma SubscribedIsMembership(pt: Option<PermissionTree>, channels: set<string>, channel: string)
    requires forall ch | ch in channels :: AuthorizeChannel(pt, ch)
    ensures Subscribed(channels, channel) <==> channel in channels
  {
    forall ch | ch in channels && ch != ""
      ensures ch[|ch| - 1] != '*'
    {
      assert ch[|ch| - 1] in ch;
    }
  }

  lemma {:induction false} OnePartIsFree(s: string, sep: char)
    ensures |Split(s, sep)| == 1 <==> sep !in s
  {
    if s != "" {
      OnePartIsFree(s[1..], sep);
    }
  }

  predicate PlainName(s: string) {
    s != "" && ':' !in s && '*' !in s
  }

  /** A printed pod-log channel has four parts exactly when its names hold no colon. */
  lemma PodLogParts(c: string, n: string, p: string)
    ensures var parts := Split(PodLogChannelName(c, n, p), ':');
            if ':' !in c && ':' !in n && ':' !in p then parts == [TYPE_POD_LOGS, c, n, p] else |parts| > 4
  {
    SplitFree(TYPE_POD_LOGS, ':');
    SplitConcat(TYPE_POD_LOGS, c + [':'] + (n + [':'] + p), ':');
    SplitConcat(c, n + [':'] + p, ':');
    SplitConcat(n, p, ':');
    OnePartIsFree(c, ':');
    OnePartIsFree(n, ':');
    OnePartIsFree(p, ':');
    if ':' !in c && ':' !in n && ':' !in p {
      SplitFree(c, ':');
      SplitFree(n, ':');
      SplitFree(p, ':');
    }
  }

  /** A printed pod-log channel takes the third case of the switch. */
  lemma PodLogShape(c: string, n: string, p: string)
    ensures var channel := PodLogChannelName(c, n, p);
            && TYPE_POD_LOGS + ":" <= channel
            && channel != TYPE_TASK_PROGRESS && channel != TYPE_CLUSTER_EVENT
            && ('*' in channel <==> '*' in c || '*' in n || '*' in p)
  {
    var channel := PodLogChannelName(c, n, p);
    assert channel == TYPE_POD_LOGS + ":" + (c + [':'] + (n + [':'] + p));
    assert channel[8] == ':';
    var tail := n + [':'] + p;
    assert '*' in tail <==> '*' in n || '*' in p;
    assert '*' in c + [':'] + tail <==> '*' in c || '*' in tail;
  }

  /**
   A printed pod-log channel is accepted exactly when its three names are plain and the tree
   covers that namespace: parsing gives back the triple that was printed.
   */
  lemma PodLogChannelAccepted(pt: Option<PermissionTree>, c: string, n: string, p: string)
    ensures AuthorizeChannel(pt, PodLogChannelName(c, n, p)) <==>
            && pt.Some?
            && PlainName(c) && PlainName(n) && PlainName(p)
            && (HasPerm(pt.value, "cluster:list") || HasPerm(pt.value, "resource:get"))
            && HasNamespaceScope(pt.value, c, n)
  {
    PodLogParts(c, n, p);
    PodLogShape(c, n, p);
  }

  /** Splitting into four parts undoes printing. */
  lemma FourPartsArePrinted(channel: string)
    requires TYPE_POD_LOGS + ":" <= channel && |Split(channel, ':')| == 4
    ensures var parts := Split(channel, ':');
            channel == PodLogChannelName(parts[1], parts[2], parts[3]) && forall i | 0 <= i < 4 :: ':' !in parts[i]
  {
    var parts := Split(channel, ':');
    JoinSplit(channel, ':');
    SplitPartsAreFree(channel, ':');
    var rest := channel[|TYPE_POD_LOGS| + 1..];
    assert channel == TYPE_POD_LOGS + [':'] + rest;
    SplitConcat(TYPE_POD_LOGS, rest, ':');
    SplitFree(TYPE_POD_LOGS, ':');
    assert parts[0] == TYPE_POD_LOGS;
    assert parts[1..][1..] == [parts[2], parts[3]] && [parts[2], parts[3]][1..] == [parts[3]];
    assert Join(parts[1..], ':') == parts[1] + [':'] + Join([parts[2], parts[3]], ':');
    assert Join([parts[2], parts[3]], ':') == parts[2] + [':'] + parts[3];
  }

  /** Who may read the logs of one pod. */
  predicate MayReadLogs(pt: PermissionTree, c: string, n: string, p: string) {
    && PlainName(c) && PlainName(n) && PlainName(p)
    && (HasPerm(pt, "cluster:list") || HasPerm(pt, "resource:get")) && HasNamespaceScope(pt, c, n)
  }

  /** The channels there are, and who may subscribe to each: two fixed ones, and one for each pod; no other is accepted. */
  lemma AcceptedChannels(pt: Option<PermissionTree>, channel: string)
    ensures AuthorizeChannel(pt, channel) <==>
            && pt.Some?
            && (|| (channel == "task_progress" && HasPerm(pt.value, "backup:list"))
                || (channel == "cluster_event" && HasPerm(pt.value, "cluster:list"))
                || exists c, n, p :: channel == PodLogChannelName(c, n, p) && MayReadLogs(pt.value, c, n, p))
  {
    if pt.Some? {
      if AuthorizeChannel(pt, channel) && channel != TYPE_TASK_PROGRESS && channel != TYPE_CLUSTER_EVENT {
        var parts := Split(channel, ':');
        FourPartsArePrinted(channel);
        PodLogChannelAccepted(pt, parts[1], parts[2], parts[3]);
        assert MayReadLogs(pt.value, parts[1], parts[2], parts[3]);
      }
      forall c, n, p | channel == PodLogChannelName(c, n, p) && MayReadLogs(pt.value, c, n, p)
        ensures AuthorizeChannel(pt, channel)
      {
        PodLogChannelAccepted(pt, c, n, p);
      }
      assert '*' !in TYPE_TASK_PROGRESS && '*' !in TYPE_CLUSTER_EVENT;
    }
  }

  /** The namespaces that a progress event may be about: its own, or any when it names none, several, or no cluster. */
  predicate MayConcern(p: ProgressPayload, n: string) {
    p.clusterCode == "" || p.namespace_ == "" || "multi:" <= p.namespace_ || n == p.namespace_
  }

  /** A progress event may be seen exactly by who has the permission and scope on every namespace it may be about. */
  lemma ProgressIsExact(pt: Option<PermissionTree>, raw: Option<ProgressPayload>)
    ensures AuthorizeTaskProgressPayload(pt, raw) <==>
            && pt.Some? && raw.Some? && HasPerm(pt.value, "backup:list")
            && forall n | MayConcern(raw.value, n) :: HasNamespaceScope(pt.value, raw.value.clusterCode, n)
  {
    assert '*' !in TYPE_TASK_PROGRESS;
    if pt.Some? && raw.Some? {
      WholeIsEveryNamespace(pt.value, raw.value.clusterCode);
      var p := raw.value;
      if p.clusterCode == "" || p.namespace_ == "" || "multi:" <= p.namespace_ {
        assert forall n :: MayConcern(p, n);
      } else {
        assert forall n :: MayConcern(p, n) <==> n == p.namespace_;
      }
    }
  }
}
