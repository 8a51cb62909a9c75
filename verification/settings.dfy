/**
 * The notification settings of the settings page (src/pages/settings/page.tsx):
 * three independent booleans, each flipped by `updateSetting`. Only the
 * e-mail notifications switch is rendered; the marketing and digest switches
 * are commented out, so those two settings keep their initial values.
 */
module Settings {

  datatype SettingsState = SettingsState(
    emailNotifications: bool, marketingEmails: bool, activityDigest: bool)

  /** The keys of the settings record, one per switch. */
  datatype Key = EmailNotifications | MarketingEmails | ActivityDigest

  /** The value a switch shows. */
  function Get(s: SettingsState, k: Key): bool {
    match k
    case EmailNotifications => s.emailNotifications
    case MarketingEmails => s.marketingEmails
    case ActivityDigest => s.activityDigest
  }

  /** Notifications and the digest start on, marketing mail starts off. */
  function Initial(): (s: SettingsState)
    ensures Get(s, EmailNotifications) && !Get(s, MarketingEmails) && Get(s, ActivityDigest)
  {
    SettingsState(true, false, true)
  }

  /** Flipping a switch negates its own setting and leaves the others alone. */
  function UpdateSetting(s: SettingsState, k: Key): (r: SettingsState)
    ensures Get(r, k) == !Get(s, k)
    ensures forall other: Key :: other != k ==> Get(r, other) == Get(s, other)
  {
    match k
    case EmailNotifications => s.(emailNotifications := !s.emailNotifications)
    case MarketingEmails => s.(marketingEmails := !s.marketingEmails)
    case ActivityDigest => s.(activityDigest := !s.activityDigest)
  }

  /** Two settings agree exactly when every switch shows the same value. */
  lemma SameSwitchesSameSettings(s: SettingsState, t: SettingsState)
    requires forall k: Key :: Get(s, k) == Get(t, k)
    ensures s == t
  {
    assert Get(s, EmailNotifications) == Get(t, EmailNotifications);
    assert Get(s, MarketingEmails) == Get(t, MarketingEmails);
    assert Get(s, ActivityDigest) == Get(t, ActivityDigest);
  }

  /** The switches the page renders: e-mail notifications only. */
  predicate Rendered(k: Key) {
    k == EmailNotifications
  }

  /** The settings after a sequence of switch clicks. */
  function Clicks(s: SettingsState, keys: seq<Key>): (r: SettingsState)
    ensures forall k: Key :: (forall i :: 0 <= i < |keys| ==> keys[i] != k) ==> Get(r, k) == Get(s, k)
    decreases |keys|
  {
    if keys == [] then s else Clicks(UpdateSetting(s, keys[0]), keys[1..])
  }

  /**
   * Whatever the user clicks on the page, marketing mail stays off and the
   * digest stays on; only e-mail notifications can change.
   */
  lemma HiddenSettingsKeepDefaults(keys: seq<Key>)
    requires forall i :: 0 <= i < |keys| ==> Rendered(keys[i])
    ensures !Get(Clicks(Initial(), keys), MarketingEmails)
    ensures Get(Clicks(Initial(), keys), ActivityDigest)
  {
  }

  /** Flipping the same switch twice restores the settings. */
  lemma UpdateTwice(s: SettingsState, k: Key)
    ensures UpdateSetting(UpdateSetting(s, k), k) == s
  {
    var r := UpdateSetting(UpdateSetting(s, k), k);
    forall other: Key
      ensures Get(r, other) == Get(s, other)
    {
    }
    SameSwitchesSameSettings(r, s);
  }

  /** Flips of different switches commute. */
  lemma UpdatesCommute(s: SettingsState, a: Key, b: Key)
    ensures UpdateSetting(UpdateSetting(s, a), b) == UpdateSetting(UpdateSetting(s, b), a)
  {
    SameSwitchesSameSettings(UpdateSetting(UpdateSetting(s, a), b), UpdateSetting(UpdateSetting(s, b), a));
  }
}
