/** The notification inbox (components/notification-list.tsx): load, normalise, mark read. */
module NotificationList {
  import opened Wrappers
  import opened JsonValue
  import opened Strings
  import Auth

  /** A notification after normalisation: the object's own fields with `read` always set. */
  type Entry = map<string, JsValue>

  /** `n.read ?? n.readStatus ?? false`, for an entry that is not `null`. */
  function ReadOf(n: JsValue): (r: JsValue)
    requires !n.Null?
    ensures Present(Get(n, "read")) ==> r == Get(n, "read").value
    ensures !Present(Get(n, "read")) && Present(Get(n, "readStatus")) ==> r == Get(n, "readStatus").value
    ensures !Present(Get(n, "read")) && !Present(Get(n, "readStatus")) ==> r == Bool(false)
  {
    Coalesce(Coalesce(Get(n, "read"), Get(n, "readStatus")), Some(Bool(false))).value
  }

  /** `{ ...n, read: … }`. */
  function Normalize(n: JsValue): Entry
    requires !n.Null?
  {
    Spread(n)["read" := ReadOf(n)]
  }

  /** `response.data.content || response.data || []`, kept only when it is an array. */
  function ItemsOf(data: JsValue): seq<JsValue>
    requires !data.Null?
  {
    var chosen := Or(Get(data, "content"), Or(Some(data), Arr([])));
    if chosen.Arr? then chosen.items else []
  }

  /**
   * The list `fetchNotifications` stores; `None` when the body or one of its items is
   * `null`, where reading a property throws and the list is left as it was.
   */
  function NormalizePayload(data: JsValue): (r: Option<seq<Entry>>)
    ensures r.Some? ==> !data.Null? && |r.value| == |ItemsOf(data)|
    ensures r.Some? ==> forall i :: 0 <= i < |r.value| ==>
      !ItemsOf(data)[i].Null? && r.value[i] == Spread(ItemsOf(data)[i])["read" := ReadOf(ItemsOf(data)[i])]
    ensures r.None? <==> data.Null? || exists i :: 0 <= i < |ItemsOf(data)| && ItemsOf(data)[i].Null?
  {
    if data.Null? then None
    else
      var items := ItemsOf(data);
      if exists i :: 0 <= i < |items| && items[i].Null? then None
      else Some(seq(|items|, i requires 0 <= i < |items| => Normalize(items[i])))
  }

  /**
   * A truthy `content` array is preferred over the body; a body that is neither
   * an array nor an object with such a `content` gives the empty list; every entry
   * keeps the value its `read` field had when that was present, `false` included.
   */
  lemma NormalizePayloadSpec(data: JsValue)
    ensures data.Obj? && "content" in data.fields && data.fields["content"].Arr? ==>
      ItemsOf(data) == data.fields["content"].items
    ensures data.Arr? ==> ItemsOf(data) == data.items
    ensures !data.Arr? && !(data.Obj? && "content" in data.fields && data.fields["content"].Arr?) ==>
      NormalizePayload(data) == if data.Null? then None else Some([])
    ensures NormalizePayload(data).Some? ==> forall i :: 0 <= i < |ItemsOf(data)| ==>
      Present(Get(ItemsOf(data)[i], "read")) ==>
        NormalizePayload(data).value[i]["read"] == Get(ItemsOf(data)[i], "read").value
    ensures NormalizePayload(data).Some? ==> forall i, k :: 0 <= i < |ItemsOf(data)| && k != "read" ==>
      (k in NormalizePayload(data).value[i] <==> ItemsOf(data)[i].Obj? && k in ItemsOf(data)[i].fields)
      && (k in NormalizePayload(data).value[i] ==> NormalizePayload(data).value[i][k] == ItemsOf(data)[i].fields[k])
  {
    if !data.Null? && !data.Arr? && !(data.Obj? && "content" in data.fields && data.fields["content"].Arr?) {
      assert ItemsOf(data) == [];
    }
  }

  function ReadField(n: Entry): JsValue {
    if "read" in n then n["read"] else Null
  }

  /** `notifications.filter(n => !n.read).length`. */
  function UnreadCount(list: seq<Entry>): (r: nat)
    ensures r <= |list|
  {
    if list == [] then 0
    else (if Truthy(ReadField(list[0])) then 0 else 1) + UnreadCount(list[1..])
  }

  /** Whether an entry's `id` is the given one. */
  predicate HasId(n: Entry, id: string) {
    "id" in n && n["id"] == Str(id)
  }

  /** `prev.map(n => n.id === id ? { ...n, read: true } : n)`. */
  function MarkedRead(list: seq<Entry>, id: string): (r: seq<Entry>)
    ensures |r| == |list|
    ensures forall i :: 0 <= i < |list| ==> r[i] == (if HasId(list[i], id) then list[i]["read" := Bool(true)] else list[i])
  {
    seq(|list|, i requires 0 <= i < |list| => if HasId(list[i], id) then list[i]["read" := Bool(true)] else list[i])
  }

  /** `prev.map(n => ({ ...n, read: true }))`. */
  function AllMarkedRead(list: seq<Entry>): (r: seq<Entry>)
    ensures |r| == |list|
    ensures forall i :: 0 <= i < |list| ==> r[i] == list[i]["read" := Bool(true)]
  {
    seq(|list|, i requires 0 <= i < |list| => list[i]["read" := Bool(true)])
  }

  /** Marking all read a second time changes nothing. */
  lemma MarkAllIdempotent(list: seq<Entry>)
    ensures AllMarkedRead(AllMarkedRead(list)) == AllMarkedRead(list)
  {
    var once := AllMarkedRead(list);
    forall i | 0 <= i < |list|
      ensures AllMarkedRead(once)[i] == once[i]
    {
      assert once[i]["read" := Bool(true)] == once[i];
    }
  }

  /** After mark-all nothing is unread. */
  lemma {:induction false} MarkAllClears(list: seq<Entry>)
    ensures UnreadCount(AllMarkedRead(list)) == 0
    decreases |list|
  {
    if list != [] {
      assert AllMarkedRead(list)[1..] == AllMarkedRead(list[1..]);
      MarkAllClears(list[1..]);
      assert ReadField(AllMarkedRead(list)[0]) == Bool(true);
    }
  }

  /** Marking one id read never raises the unread count, and lowers it when an unread entry carries that id. */
  lemma {:induction false} MarkOneLowersUnread(list: seq<Entry>, id: string)
    ensures UnreadCount(MarkedRead(list, id)) <= UnreadCount(list)
    ensures (exists i :: 0 <= i < |list| && HasId(list[i], id) && !Truthy(ReadField(list[i]))) ==>
      UnreadCount(MarkedRead(list, id)) < UnreadCount(list)
    decreases |list|
  {
    if list != [] {
      assert MarkedRead(list, id)[1..] == MarkedRead(list[1..], id);
      MarkOneLowersUnread(list[1..], id);
      if exists i :: 0 <= i < |list| && HasId(list[i], id) && !Truthy(ReadField(list[i])) {
        var i :| 0 <= i < |list| && HasId(list[i], id) && !Truthy(ReadField(list[i]));
        if i > 0 {
          assert list[1..][i - 1] == list[i];
        }
      }
    }
  }

  /** "n unread notification(s)", shown only when something is unread. */
  function UnreadLabel(count: nat): Option<string> {
    if count == 0 then None
    else Some(NatToString(count) + " unread notification" + (if count != 1 then "s" else ""))
  }

  /** The label names the count and is plural exactly when the count is not 1. */
  lemma UnreadLabelSpec(count: nat)
    ensures UnreadLabel(count).Some? <==> count > 0
    ensures count > 0 ==> (EndsWith(UnreadLabel(count).value, "s") <==> count != 1)
    ensures count > 0 ==> ParseDigits(UnreadLabel(count).value[..|NatToString(count)|]) == count
  {
    if count > 0 {
      var t := NatToString(count);
      var l := UnreadLabel(count).value;
      ParseNatToString(count);
      assert l[..|t|] == t;
      if count == 1 {
        assert l == "1 unread notification";
      }
    }
  }

  /** Who is looking: the stored user's role and "first last" trimmed. */
  datatype Viewer = Viewer(role: Option<string>, fullName: Option<string>)

  /** `` `${first || ""} ${last || ""}`.trim() ``. */
  function FullName(u: Auth.User): string {
    Trim(TextOr(u.firstName, "") + " " + TextOr(u.lastName, ""))
  }

  /** The name has no blanks at either end, and is empty when neither name is set. */
  lemma FullNameSpec(u: Auth.User)
    ensures Trim(FullName(u)) == FullName(u)
    ensures TextOr(u.firstName, "") == "" && TextOr(u.lastName, "") == "" ==> FullName(u) == ""
  {
    TrimIdempotent(TextOr(u.firstName, "") + " " + TextOr(u.lastName, ""));
    if TextOr(u.firstName, "") == "" && TextOr(u.lastName, "") == "" {
      BlankIffAllWhitespace(" ");
    }
  }

  /**
   * What the effect reading the stored user sets; `None` (nothing set) when the
   * user is missing or does not parse.
   */
  function ViewerOf(stored: Auth.StoredUser): (r: Option<Viewer>)
    ensures r.Some? <==> stored.Found?
    ensures r.Some? ==> r.value.role == stored.user.role && r.value.fullName.Some?
    ensures r.Some? ==> r.value.fullName == Some(FullName(stored.user))
  {
    match stored
    case Found(u) =>
      Some(Viewer(u.role, Some(FullName(u))))
    case _ => None
  }

  /** The "Sent by …" line: hidden from students and for a missing sender; "you" for one's own. */
  function SenderLine(viewer: Viewer, senderName: Option<string>): Option<string> {
    if viewer.role == Some("STUDENT") || senderName.None? || senderName.value == "" then None
    else if viewer.fullName == senderName then Some("you")
    else Some(senderName.value)
  }

  /**
   * A student never sees the line; anyone else sees it for every non-empty sender,
   * and it names the sender unless the sender is the viewer.
   */
  lemma SenderLineSpec(viewer: Viewer, senderName: Option<string>)
    ensures viewer.role == Some("STUDENT") ==> SenderLine(viewer, senderName).None?
    ensures SenderLine(viewer, senderName).Some? <==>
      viewer.role != Some("STUDENT") && senderName.Some? && senderName.value != ""
    ensures SenderLine(viewer, senderName).Some? && viewer.fullName != senderName ==>
      SenderLine(viewer, senderName).value == senderName.value
    ensures SenderLine(viewer, senderName).Some? && SenderLine(viewer, senderName).value != senderName.value ==>
      SenderLine(viewer, senderName).value == "you"
  {
  }

  /** The inbox's state. */
  class Inbox {
    var notifications: seq<Entry>
    var loading: bool
    var viewer: Viewer

    constructor ()
      ensures notifications == [] && loading && viewer == Viewer(None, None)
    {
      notifications := [];
      loading := true;
      viewer := Viewer(None, None);
    }

    /** The mount effect, given what `localStorage` holds under "user" (`Auth.StoredUserIn`). */
    method LoadViewer(stored: Auth.StoredUser)
      modifies this
      ensures viewer == ViewerOf(stored).GetOr(old(viewer))
      ensures notifications == old(notifications) && loading == old(loading)
    {
      var v := ViewerOf(stored);
      if v.Some? {
        viewer := v.value;
      }
    }

    /** `fetchNotifications`: the normalised list on success, the old list otherwise; loading ends. */
    method Fetch(reply: Reply<JsValue>)
      modifies this
      ensures reply.Ok? && NormalizePayload(reply.value).Some? ==>
        notifications == NormalizePayload(reply.value).value
      ensures !(reply.Ok? && NormalizePayload(reply.value).Some?) ==> notifications == old(notifications)
      ensures !loading && viewer == old(viewer)
    {
      if reply.Ok? {
        var normalized := NormalizePayload(reply.value);
        if normalized.Some? {
          notifications := normalized.value;
        }
      }
      loading := false;
    }

    method MarkAsRead(id: string, reply: Reply<()>)
      modifies this
      ensures reply.Ok? ==> notifications == MarkedRead(old(notifications), id)
      ensures reply.Failed? ==> notifications == old(notifications)
      ensures loading == old(loading) && viewer == old(viewer)
    {
      if reply.Ok? {
        notifications := MarkedRead(notifications, id);
      }
    }

    method MarkAllAsRead(reply: Reply<()>)
      modifies this
      ensures reply.Ok? ==> notifications == AllMarkedRead(old(notifications))
      ensures reply.Ok? ==> UnreadCount(notifications) == 0
      ensures reply.Failed? ==> notifications == old(notifications)
      ensures loading == old(loading) && viewer == old(viewer)
    {
      if reply.Ok? {
        MarkAllClears(notifications);
        notifications := AllMarkedRead(notifications);
      }
    }
  }
}
