/** `chrome.storage.local`, shared by the background script and the popup: a map from
    keys to stored values, held by one object that the handlers update in place. */
module Storage {
  import opened Messages

  datatype Value =
    | Text(text: string)
    | TextList(list: seq<string>)
    | TextMap(texts: map<string, string>)
    | TargetList(targets: seq<Target>)
    | SettingsRecord(settings: Settings)
    | Opaque(id: int)    // a value no modelled code looks inside (the sent-messages log)

  const UserProfileLinks := "userProfileLinks"
  const TargetProfiles := "targetProfiles"
  const MessageTemplates := "messageTemplates"
  const SelectedTemplate := "selectedTemplate"
  const SettingsKey := "settings"
  const SentMessages := "sentMessages"

  /** The sent-message log is kept under a key of its own. */
  lemma SentMessagesKeyApart()
    ensures SentMessages != UserProfileLinks && SentMessages != TargetProfiles
    ensures SentMessages != MessageTemplates && SentMessages != SelectedTemplate
    ensures SentMessages != SettingsKey
  {
  }

  class Store {
    var items: map<string, Value>

    constructor ()
      ensures items == map[]
    {
      items := map[];
    }

    /** `chrome.storage.local.clear()` */
    method Clear()
      modifies this
      ensures items == map[]
    {
      items := map[];
    }
  }

  /** `await getFromStorage(USER_PROFILE_LINKS) || []` */
  function ProfilesIn(items: map<string, Value>): seq<string> {
    if UserProfileLinks in items && items[UserProfileLinks].TextList? then items[UserProfileLinks].list else []
  }

  /** `await getFromStorage(TARGET_PROFILES) || []` */
  function TargetsIn(items: map<string, Value>): seq<Target> {
    if TargetProfiles in items && items[TargetProfiles].TargetList? then items[TargetProfiles].targets else []
  }

  /** The stored templates map, `undefined` when missing. */
  function TemplatesIn(items: map<string, Value>): Option<map<string, string>> {
    if MessageTemplates in items && items[MessageTemplates].TextMap? then Some(items[MessageTemplates].texts) else None
  }

  /** The stored template selection, `undefined` when missing. */
  function SelectedIn(items: map<string, Value>): Option<string> {
    if SelectedTemplate in items && items[SelectedTemplate].Text? then Some(items[SelectedTemplate].text) else None
  }

  /** The stored settings record, `undefined` when missing. */
  function SettingsIn(items: map<string, Value>): Option<Settings> {
    if SettingsKey in items && items[SettingsKey].SettingsRecord? then Some(items[SettingsKey].settings) else None
  }

  /** The storage after `setInStorage(TARGET_PROFILES, ts)`. */
  function PutTargets(items: map<string, Value>, ts: seq<Target>): (r: map<string, Value>)
    ensures TargetsIn(r) == ts
    ensures r - {TargetProfiles} == items - {TargetProfiles}
  {
    items[TargetProfiles := TargetList(ts)]
  }
}
