// The settings record of medalert-assist/src/pages/Settings.tsx: a theme
// name, four notification switches and two privacy switches, each handler
// flipping or setting one field. The theme context the page also informs
// is recorded as the last theme handed to it.
module Settings {
  datatype NotificationKey = Email | Push | Sms | Sound
  datatype PrivacyKey = ShowProfile | ShowActivity

  datatype NotificationFlags = NotificationFlags(email: bool, push: bool, sms: bool, sound: bool)
  datatype PrivacyFlags = PrivacyFlags(showProfile: bool, showActivity: bool)
  datatype SettingsState = SettingsState(theme: string, notifications: NotificationFlags, privacy: PrivacyFlags)

  /** `notifications[key]` */
  function NotificationFlag(n: NotificationFlags, key: NotificationKey): bool {
    match key
    case Email => n.email
    case Push => n.push
    case Sms => n.sms
    case Sound => n.sound
  }

  /** `privacy[key]` */
  function PrivacyFlag(p: PrivacyFlags, key: PrivacyKey): bool {
    match key
    case ShowProfile => p.showProfile
    case ShowActivity => p.showActivity
  }

  /** `{ ...n, [key]: !n[key] }` */
  function FlipNotification(n: NotificationFlags, key: NotificationKey): (r: NotificationFlags)
    ensures NotificationFlag(r, key) == !NotificationFlag(n, key)
    ensures forall k :: k != key ==> NotificationFlag(r, k) == NotificationFlag(n, k)
  {
    match key
    case Email => n.(email := !n.email)
    case Push => n.(push := !n.push)
    case Sms => n.(sms := !n.sms)
    case Sound => n.(sound := !n.sound)
  }

  /** `{ ...p, [key]: !p[key] }` */
  function FlipPrivacy(p: PrivacyFlags, key: PrivacyKey): (r: PrivacyFlags)
    ensures PrivacyFlag(r, key) == !PrivacyFlag(p, key)
    ensures forall k :: k != key ==> PrivacyFlag(r, k) == PrivacyFlag(p, k)
  {
    match key
    case ShowProfile => p.(showProfile := !p.showProfile)
    case ShowActivity => p.(showActivity := !p.showActivity)
  }

  /** A record is fixed by its flags: two records agreeing on every key
      are the same record. */
  lemma NotificationsByFlags(a: NotificationFlags, b: NotificationFlags)
    requires forall k :: NotificationFlag(a, k) == NotificationFlag(b, k)
    ensures a == b
  {
    assert NotificationFlag(a, Email) == NotificationFlag(b, Email);
    assert NotificationFlag(a, Push) == NotificationFlag(b, Push);
    assert NotificationFlag(a, Sms) == NotificationFlag(b, Sms);
    assert NotificationFlag(a, Sound) == NotificationFlag(b, Sound);
  }

  lemma PrivacyByFlags(a: PrivacyFlags, b: PrivacyFlags)
    requires forall k :: PrivacyFlag(a, k) == PrivacyFlag(b, k)
    ensures a == b
  {
    assert PrivacyFlag(a, ShowProfile) == PrivacyFlag(b, ShowProfile);
    assert PrivacyFlag(a, ShowActivity) == PrivacyFlag(b, ShowActivity);
  }

  /** Flipping the same switch twice restores the record. */
  lemma FlipNotificationTwice(n: NotificationFlags, key: NotificationKey)
    ensures FlipNotification(FlipNotification(n, key), key) == n
  {
    NotificationsByFlags(FlipNotification(FlipNotification(n, key), key), n);
  }

  lemma FlipPrivacyTwice(p: PrivacyFlags, key: PrivacyKey)
    ensures FlipPrivacy(FlipPrivacy(p, key), key) == p
  {
    PrivacyByFlags(FlipPrivacy(FlipPrivacy(p, key), key), p);
  }

  /** The initial record: email, push and sound on, sms off, both privacy
      switches on, and the theme the page was opened with. */
  function InitialSettings(theme: string): (s: SettingsState)
    ensures s.theme == theme
    ensures forall k :: NotificationFlag(s.notifications, k) <==> k != Sms
    ensures forall k :: PrivacyFlag(s.privacy, k)
  {
    SettingsState(theme, NotificationFlags(true, true, false, true), PrivacyFlags(true, true))
  }

  class SettingsPage {
    var settings: SettingsState
    /** The theme last handed to the theme context. */
    var appliedTheme: string

    constructor (theme: string)
      ensures settings == InitialSettings(theme) && appliedTheme == theme
    {
      settings := InitialSettings(theme);
      appliedTheme := theme;
    }

    /** `handleThemeChange` */
    method HandleThemeChange(value: string)
      modifies this
      ensures settings == old(settings).(theme := value) && appliedTheme == value
    {
      settings := settings.(theme := value);
      appliedTheme := value;
    }

    /** `handleNotificationChange` */
    method HandleNotificationChange(key: NotificationKey)
      modifies this
      ensures settings == old(settings).(notifications := FlipNotification(old(settings).notifications, key))
      ensures appliedTheme == old(appliedTheme)
    {
      settings := settings.(notifications := FlipNotification(settings.notifications, key));
    }

    /** `handlePrivacyChange` */
    method HandlePrivacyChange(key: PrivacyKey)
      modifies this
      ensures settings == old(settings).(privacy := FlipPrivacy(old(settings).privacy, key))
      ensures appliedTheme == old(appliedTheme)
    {
      settings := settings.(privacy := FlipPrivacy(settings.privacy, key));
    }
  }
}
