// The notification list and speech preference of
// medalert-assist/src/contexts/NotificationContext.tsx. The id and the
// timestamp of a new notice (`Date.now()`, `new Date()`) are inputs; the
// toast, the spoken text and the browser notification are not modelled.
module NotificationInbox {
  import opened Common

  datatype NoticeKind = MedicineAdded | MedicineReminder | MedicineTaken

  datatype Notice = Notice(id: string, title: string, message: string, timestamp: int,
                           read: bool, kind: NoticeKind)

  /** `notifications.filter(n => !n.read).length` */
  function UnreadCount(ns: seq<Notice>): (n: nat)
    ensures n <= |ns|
  {
    if ns == [] then 0
    else UnreadCount(ns[..|ns| - 1]) + (if ns[|ns| - 1].read then 0 else 1)
  }

  /** `prev.map(n => n.id === id ? { ...n, read: true } : n)` */
  function MarkRead(ns: seq<Notice>, id: string): (r: seq<Notice>)
    ensures |r| == |ns|
  {
    seq(|ns|, i requires 0 <= i < |ns| => if ns[i].id == id then ns[i].(read := true) else ns[i])
  }

  /** `prev.map(n => ({ ...n, read: true }))` */
  function MarkAll(ns: seq<Notice>): (r: seq<Notice>)
    ensures |r| == |ns|
  {
    seq(|ns|, i requires 0 <= i < |ns| => ns[i].(read := true))
  }

  /** The persisted form of the speech preference, `String(b)`. */
  function BoolString(b: bool): string {
    if b then "true" else "false"
  }

  /** Reading the preference back: `saved === 'true'`. */
  predicate ParsePreference(saved: string) {
    saved == "true"
  }

  lemma PreferenceRoundTrip(b: bool)
    ensures ParsePreference(BoolString(b)) == b
  {
  }

  /** A prepended unread notice raises the unread count by one. */
  lemma {:induction false} UnreadCountPrepend(n: Notice, ns: seq<Notice>)
    ensures UnreadCount([n] + ns) == UnreadCount(ns) + (if n.read then 0 else 1)
    decreases |ns|
  {
    if ns == [] {
      assert [n] + ns == [n];
      assert [n][..0] == [];
    } else {
      var init := ns[..|ns| - 1];
      assert ([n] + ns)[..|ns|] == [n] + init;
      UnreadCountPrepend(n, init);
    }
  }

  /** A list whose notices are all read has no unread ones. */
  lemma {:induction false} AllReadNoneUnread(ns: seq<Notice>)
    requires forall i :: 0 <= i < |ns| ==> ns[i].read
    ensures UnreadCount(ns) == 0
  {
    if ns != [] {
      AllReadNoneUnread(ns[..|ns| - 1]);
    }
  }

  /** After marking everything read nothing is unread, and each notice is
      the old one with `read` set. */
  lemma MarkAllClearsUnread(ns: seq<Notice>)
    ensures UnreadCount(MarkAll(ns)) == 0
    ensures forall i :: 0 <= i < |ns| ==> MarkAll(ns)[i] == ns[i].(read := true)
  {
    AllReadNoneUnread(MarkAll(ns));
  }

  /** Marking an id read touches only the notices with that id, and marking
      it again changes nothing. */
  lemma MarkReadShape(ns: seq<Notice>, id: string)
    ensures forall i :: 0 <= i < |ns| && ns[i].id != id ==> MarkRead(ns, id)[i] == ns[i]
    ensures forall i :: 0 <= i < |ns| && ns[i].id == id ==> MarkRead(ns, id)[i] == ns[i].(read := true)
    ensures MarkRead(MarkRead(ns, id), id) == MarkRead(ns, id)
  {
  }

  /** Marking an id read never raises the unread count, and lowers it
      exactly by the unread notices with that id. */
  lemma {:induction false} MarkReadCount(ns: seq<Notice>, id: string)
    ensures UnreadCount(MarkRead(ns, id)) == UnreadCount(ns) - UnreadWithId(ns, id)
    ensures UnreadCount(MarkRead(ns, id)) <= UnreadCount(ns)
  {
    if ns != [] {
      var init := ns[..|ns| - 1];
      MarkReadCount(init, id);
      assert MarkRead(ns, id)[..|ns| - 1] == MarkRead(init, id);
    }
  }

  /** The unread notices carrying the given id. */
  function UnreadWithId(ns: seq<Notice>, id: string): (n: nat)
    ensures n <= UnreadCount(ns)
  {
    if ns == [] then 0
    else
      var last := ns[|ns| - 1];
      UnreadWithId(ns[..|ns| - 1], id) + (if !last.read && last.id == id then 1 else 0)
  }

  class Inbox {
    var notifications: seq<Notice>
    var speechEnabled: bool
    /** localStorage 'medalert-speech-enabled'. */
    var storedSpeech: Option<string>

    /** A fresh provider: no notices, speech on, then the stored preference
        is read back when there is one. */
    constructor (saved: Option<string>)
      ensures notifications == [] && storedSpeech == saved
      ensures speechEnabled == (saved.None? || ParsePreference(saved.value))
    {
      notifications := [];
      storedSpeech := saved;
      speechEnabled := true;
      if saved.Some? {
        speechEnabled := ParsePreference(saved.value);
      }
    }

    function Unread(): nat
      reads this
    {
      UnreadCount(notifications)
    }

    /** `toggleSpeechNotifications`: the flag flips and the stored string
        is the new value. */
    method ToggleSpeech()
      modifies this
      ensures speechEnabled == !old(speechEnabled)
      ensures storedSpeech == Some(BoolString(speechEnabled))
      ensures notifications == old(notifications)
    {
      speechEnabled := !speechEnabled;
      storedSpeech := Some(BoolString(speechEnabled));
    }

    /** `addNotification`: a new unread notice goes in front. */
    method Add(title: string, message: string, kind: NoticeKind, id: string, timestamp: int)
      modifies this
      ensures notifications == [Notice(id, title, message, timestamp, false, kind)] + old(notifications)
      ensures Unread() == old(Unread()) + 1
      ensures speechEnabled == old(speechEnabled) && storedSpeech == old(storedSpeech)
    {
      var n := Notice(id, title, message, timestamp, false, kind);
      UnreadCountPrepend(n, notifications);
      notifications := [n] + notifications;
    }

    /** `markAsRead` */
    method MarkAsRead(id: string)
      modifies this
      ensures notifications == MarkRead(old(notifications), id)
      ensures Unread() == old(Unread()) - UnreadWithId(old(notifications), id)
      ensures speechEnabled == old(speechEnabled) && storedSpeech == old(storedSpeech)
    {
      MarkReadCount(notifications, id);
      notifications := MarkRead(notifications, id);
    }

    /** `markAllAsRead` */
    method MarkAllAsRead()
      modifies this
      ensures notifications == MarkAll(old(notifications)) && Unread() == 0
      ensures speechEnabled == old(speechEnabled) && storedSpeech == old(storedSpeech)
    {
      MarkAllClearsUnread(notifications);
      notifications := MarkAll(notifications);
    }

    /** `clearNotifications` */
    method Clear()
      modifies this
      ensures notifications == [] && Unread() == 0
      ensures speechEnabled == old(speechEnabled) && storedSpeech == old(storedSpeech)
    {
      notifications := [];
    }
  }
}
