/** The popup: the link box, the template editor, the settings form, clearing storage and
    the CSV export. Each handler reads `chrome.storage.local`, changes it and writes it
    back; the text boxes and the selector are parameters. */
module Popup {
  import opened Messages
  import opened Storage
  import opened Strings
  import opened Sequences
  import Background
  import ContentScript

  // ---------------------------------------------------------------------------
  // handleAddButtonClick: comma-separated links merged into the stored list

  predicate NonEmpty(s: string) { s != [] }

  /** `pieces.map(link => link.trim())` */
  function TrimEach(pieces: seq<string>): (r: seq<string>)
    ensures |r| == |pieces|
    ensures forall i :: 0 <= i < |r| ==> r[i] == Trim(pieces[i])
  {
    seq(|pieces|, i requires 0 <= i < |pieces| => Trim(pieces[i]))
  }

  /** The links typed into the box: nothing when the trimmed box is empty, otherwise the
      trimmed comma-separated pieces that are not empty, in order. */
  function InputLinks(input: string): Option<seq<string>> {
    var t := Trim(input);
    if t == [] then None else Some(Filter(TrimEach(Split(t, ',')), NonEmpty))
  }

  /** A blank box gives no links; otherwise every link is trimmed, non-empty and free of
      commas, and every non-blank piece between two commas is among the links. */
  lemma InputLinksSpec(input: string)
    ensures InputLinks(input).None? <==> AllWhitespace(input)
    ensures InputLinks(input).Some? ==> forall i :: 0 <= i < |InputLinks(input).value| ==>
      InputLinks(input).value[i] != [] && Trimmed(InputLinks(input).value[i]) && ',' !in InputLinks(input).value[i]
    ensures InputLinks(input).Some? ==> forall j :: 0 <= j < |Split(Trim(input), ',')| && Trim(Split(Trim(input), ',')[j]) != [] ==>
      Trim(Split(Trim(input), ',')[j]) in InputLinks(input).value
  {
    TrimBlank(input);
    var t := Trim(input);
    if t != [] {
      LinksClean(Split(t, ','));
      LinksKept(Split(t, ','));
    }
  }

  lemma LinksClean(pieces: seq<string>)
    requires forall j :: 0 <= j < |pieces| ==> ',' !in pieces[j]
    ensures forall i :: 0 <= i < |Filter(TrimEach(pieces), NonEmpty)| ==>
      var link := Filter(TrimEach(pieces), NonEmpty)[i]; link != [] && Trimmed(link) && ',' !in link
  {
    var trimmed := TrimEach(pieces);
    var links := Filter(trimmed, NonEmpty);
    forall i | 0 <= i < |links|
      ensures links[i] != [] && Trimmed(links[i]) && ',' !in links[i]
    {
      var j :| 0 <= j < |trimmed| && trimmed[j] == links[i];
      TrimWithin(pieces[j]);
    }
  }

  lemma LinksKept(pieces: seq<string>)
    ensures forall j :: 0 <= j < |pieces| && Trim(pieces[j]) != [] ==> Trim(pieces[j]) in Filter(TrimEach(pieces), NonEmpty)
  {
    var trimmed := TrimEach(pieces);
    forall j | 0 <= j < |pieces| && Trim(pieces[j]) != []
      ensures Trim(pieces[j]) in Filter(trimmed, NonEmpty)
    {
      FilterMembership(trimmed, NonEmpty, trimmed[j]);
    }
  }

  /** Links written between commas, with any whitespace around the list, are read back
      exactly: parsing undoes `links.join(',')`. */
  lemma InputLinksOfList(a: string, links: seq<string>, b: string)
    requires |links| >= 1
    requires forall i :: 0 <= i < |links| ==> links[i] != [] && Trimmed(links[i]) && ',' !in links[i]
    requires AllWhitespace(a) && AllWhitespace(b)
    ensures InputLinks(a + Join(links, ',') + b) == Some(links)
  {
    var j := Join(links, ',');
    JoinTrimmed(links, ',');
    JoinNonEmpty(links, ',');
    TrimOf(a, j, b);
    SplitJoin(links, ',');
    TrimEachTrimmed(links);
    FilterAll(links, NonEmpty);
  }

  lemma JoinNonEmpty(parts: seq<string>, sep: char)
    requires |parts| >= 1 && parts[0] != []
    ensures Join(parts, sep) != []
  {
    if |parts| > 1 {
      assert Join(parts, sep) == parts[0] + [sep] + Join(parts[1..], sep);
    }
  }

  lemma TrimEachTrimmed(pieces: seq<string>)
    requires forall i :: 0 <= i < |pieces| ==> Trimmed(pieces[i])
    ensures TrimEach(pieces) == pieces
  {
    forall i | 0 <= i < |pieces| ensures Trim(pieces[i]) == pieces[i] {
      assert [] + pieces[i] + [] == pieces[i];
      TrimOf([], pieces[i], []);
    }
  }

  /** The stored profile list after the add button: unchanged for a blank box, otherwise
      the existing links and the new ones without duplicates (`[...new Set(...)]`). */
  function AddedProfiles(existing: seq<string>, input: string): seq<string> {
    match InputLinks(input)
    case None => existing
    case Some(links) => Background.MergedProfiles(existing, links)
  }

  /** Adding keeps the duplicate-free stored list as it is, in front, and appends each
      typed link it lacked once, in the order typed; a blank box changes nothing. */
  lemma AddedProfilesSpec(existing: seq<string>, input: string)
    requires Distinct(existing)
    ensures AllWhitespace(input) ==> AddedProfiles(existing, input) == existing
    ensures !AllWhitespace(input) ==>
      AddedProfiles(existing, input) == existing + Dedupe(Excluding(InputLinks(input).value, existing))
    ensures Distinct(AddedProfiles(existing, input))
    ensures !AllWhitespace(input) ==> forall i :: 0 <= i < |InputLinks(input).value| ==>
      InputLinks(input).value[i] in AddedProfiles(existing, input)
  {
    InputLinksSpec(input);
    if !AllWhitespace(input) {
      Background.MergedProfilesSpec(existing, InputLinks(input).value);
    }
  }

  /** `handleAddButtonClick`: a blank box (no links) leaves storage alone; otherwise the
      merged list is stored. */
  method AddFromInput(st: Store, input: string)
    modifies st
    ensures InputLinks(input).None? ==> st.items == old(st.items)
    ensures InputLinks(input).Some? ==>
      st.items == old(st.items)[UserProfileLinks := TextList(AddedProfiles(ProfilesIn(old(st.items)), input))]
  {
    var newLinks := InputLinks(input);
    if newLinks.Some? {
      var existing := ProfilesIn(st.items);
      var merged := Background.MergedProfiles(existing, newLinks.value);
      assert merged == AddedProfiles(existing, input);
      st.items := st.items[UserProfileLinks := TextList(merged)];
    }
  }

  // ---------------------------------------------------------------------------
  // getTemplateContent / getDefaultTemplates: the five built-in messages

  const BuiltInNames: seq<string> := ["Message 1", "Message 2", "Message 3", "Message 4", "Message 5"]

  /** The built-in text of each built-in name; `\U{2014}` is an em dash. The literals
      are cut into words only to keep them cheap for the verifier. */
  function BuiltInText(name: string): string
    requires name in BuiltInNames
  {
    if name == "Message 1" then
      "Hey " + "{profileName},\n" + "\nI " + "hope " + "all's " + "well. " + "I noticed " + "you're " +
      "connected " + "with " + "{originConnectionName} " + "({originLinkedInUrl}) " + "and " +
      "wondered " + "if " + "you " + "could " + "help " + "me " + "out. " + "We " + "just " +
      "closed " + "a round " + "with " + "Sanabil " + "and " + "500 " + "Global " + "for " + "OCTA. " +
      "Our " + "platform " + "helps " + "companies " + "like " + "Careem " + "speed " + "up " +
      "collections, " + "access " + "financing, " + "and " + "recover " + "debt\U{2014}bringing " +
      "down " + "collection " + "times " + "by " + "35%.\n" + "\nWould " + "you " + "be " + "open " +
      "to " + "an " + "intro? " + "I think " + "we'd " + "be " + "a great " + "fit.\n" + "\nThanks " +
      "a ton,\n" + "[Your " + "Name]"
    else if name == "Message 2" then
      "Hi " + "{profileName},\n" + "\nHope " + "you're " + "doing " + "great. " + "I saw " + "your " +
      "connection " + "with " + "{originConnectionName} " + "({originLinkedInUrl}) " + "and " +
      "thought " + "you " + "might " + "be " + "able " + "to " + "assist. " + "We've " + "recently " +
      "secured " + "funding " + "from " + "Sanabil " + "and " + "500 " + "Global " + "for " +
      "OCTA, " + "our " + "platform " + "that's " + "helping " + "businesses " + "like " + "Careem " +
      "streamline " + "their " + "accounts " + "receivable, " + "get " + "financing, " + "and " +
      "improve " + "debt " + "recovery\U{2014}reducing " + "collection " + "times " + "by " +
      "35%.\n" + "\nWould " + "you " + "mind " + "introducing " + "us? " + "I believe " + "we " +
      "could " + "add " + "significant " + "value.\n" + "\nReally " + "appreciate " + "your " +
      "help,\n" + "[Your " + "Name]"
    else if name == "Message 3" then
      "Hello " + "{profileName},\n" + "\nTrust " + "this " + "finds " + "you " + "well. " +
      "I noticed " + "you're " + "linked " + "with " + "{originConnectionName} " +
      "({originLinkedInUrl}) " + "and " + "was " + "hoping " + "for " + "a quick " + "favor. " +
      "OCTA, " + "our " + "company, " + "just " + "raised " + "a round " + "from " + "Sanabil " +
      "and " + "500 " + "Global. " + "We're " + "focused " + "on " + "helping " + "companies " +
      "such " + "as " + "Careem " + "optimize " + "their " + "collections, " + "secure " +
      "financing, " + "and " + "manage " + "debt " + "recovery\U{2014}we've " + "seen " +
      "collection " + "times " + "drop " + "by " + "35%.\n" + "\nAny " + "chance " + "you'd " + "be " +
      "willing " + "to " + "make " + "an " + "introduction? " + "I think " + "there's " + "a great " +
      "potential " + "fit " + "here.\n" + "\nThanks " + "in " + "advance,\n" + "[Your " + "Name]"
    else if name == "Message 4" then
      "Hey " + "there " + "{profileName},\n" + "\nI " + "hope " + "you're " + "having " + "a good " +
      "day. " + "I couldn't " + "help " + "but " + "notice " + "your " + "connection " + "with " +
      "{originConnectionName} " + "({originLinkedInUrl}) " + "and " + "wanted " + "to " + "reach " +
      "out " + "for " + "a small " + "request. " + "We've " + "recently " + "closed " + "funding " +
      "with " + "Sanabil " + "and " + "500 " + "Global " + "for " + "our " + "company, " + "OCTA. " +
      "Our " + "solution " + "is " + "helping " + "businesses " + "like " + "Careem " + "accelerate " +
      "their " + "collections, " + "access " + "needed " + "financing, " + "and " + "improve " +
      "debt " + "recovery\U{2014}we're " + "seeing " + "collection " + "times " + "reduced " + "by " +
      "35%.\n" + "\nWould " + "you " + "be " + "open " + "to " + "connecting " + "us? " +
      "I believe " + "we " + "could " + "provide " + "substantial " + "value.\n" + "\nMany " +
      "thanks " + "for " + "considering,\n" + "[Your " + "Name]"
    else
      "Hi " + "{profileName},\n" + "\nI " + "hope " + "this " + "message " + "finds " + "you " +
      "well. " + "I saw " + "that " + "you're " + "connected " + "to " + "{originConnectionName} " +
      "({originLinkedInUrl}) " + "and " + "was " + "wondering " + "if " + "I could " + "ask " +
      "for " + "your " + "assistance. " + "We've " + "just " + "secured " + "funding " + "from " +
      "Sanabil " + "and " + "500 " + "Global " + "for " + "OCTA, " + "our " + "platform " + "that's " +
      "revolutionizing " + "how " + "companies " + "like " + "Careem " + "handle " + "their " +
      "accounts " + "receivable, " + "obtain " + "financing, " + "and " + "recover " +
      "debt\U{2014}we're " + "proud " + "to " + "say " + "we're " + "cutting " + "collection " +
      "times " + "by " + "35%.\n" + "\nWould " + "you " + "be " + "willing " + "to " + "make " +
      "an " + "introduction? " + "I think " + "there " + "could " + "be " + "a great " +
      "opportunity " + "for " + "collaboration.\n" + "\nThank " + "you " + "so " + "much " + "for " +
      "your " + "time,\n" + "[Your " + "Name]"
  }

  lemma BuiltInTextNonEmpty(name: string)
    requires name in BuiltInNames
    ensures BuiltInText(name) != ""
  {
  }

  /** `getTemplateContent(name)`: the built-in text of a built-in name, the empty text
      for any other name. */
  function TemplateContent(name: string): string {
    if name in BuiltInNames then BuiltInText(name) else ""
  }

  /** There is a (non-empty) text exactly for the five built-in names. */
  lemma TemplateContentSpec(name: string)
    ensures TemplateContent(name) != "" <==> name in BuiltInNames
  {
    if name in BuiltInNames {
      BuiltInTextNonEmpty(name);
    }
  }

  /** `getDefaultTemplates()` */
  function DefaultTemplates(): (m: map<string, string>) {
    map name | name in BuiltInNames :: TemplateContent(name)
  }

  /** The default map holds exactly the names that have a built-in text, each with it. */
  lemma DefaultTemplatesSpec(name: string)
    ensures name in DefaultTemplates() <==> TemplateContent(name) != ""
    ensures name in DefaultTemplates() ==> DefaultTemplates()[name] == TemplateContent(name)
  {
    TemplateContentSpec(name);
  }

  // ---------------------------------------------------------------------------
  // loadMessageTemplate / handleTemplateSelection: which text the editor shows

  const CustomName := "custom"
  const FirstTemplate := "Message 1"

  /** `templates?.[key] || fallback`: a missing map, a missing key and an empty text all
      fall back. */
  function StoredOr(templates: Option<map<string, string>>, key: string, fallback: string): (r: string)
    ensures templates.Some? && key in templates.value && templates.value[key] != "" ==> r == templates.value[key]
    ensures templates.None? || key !in templates.value || templates.value[key] == "" ==> r == fallback
  {
    if templates.Some? && key in templates.value && templates.value[key] != "" then templates.value[key] else fallback
  }

  /** The text shown for a name picked in the selector: the stored custom text or nothing
      for "custom"; otherwise the stored text, or else the built-in one. */
  function SelectedText(selected: string, templates: Option<map<string, string>>): string {
    if selected == CustomName then StoredOr(templates, CustomName, "")
    else StoredOr(templates, selected, TemplateContent(selected))
  }

  /** `loadMessageTemplate`: the text in the editor when the popup opens. A stored
      selection (a non-empty text) is shown as if picked; without one, "Message 1". */
  function LoadedText(selected: Option<string>, templates: Option<map<string, string>>): string {
    if selected.Some? && selected.value != "" then SelectedText(selected.value, templates)
    else StoredOr(templates, FirstTemplate, TemplateContent(FirstTemplate))
  }

  /** The editor is blank exactly when nothing non-empty is stored under the selected
      name and the name has no built-in text ("custom" never has one); a stored text
      always wins. */
  lemma SelectedTextSpec(selected: string, templates: Option<map<string, string>>)
    ensures SelectedText(selected, templates) == "" <==>
      (templates.None? || selected !in templates.value || templates.value[selected] == "") &&
      (selected == CustomName || selected !in BuiltInNames)
    ensures templates.Some? && selected in templates.value && templates.value[selected] != "" ==>
      SelectedText(selected, templates) == templates.value[selected]
    ensures selected in BuiltInNames && (templates.None? || selected !in templates.value || templates.value[selected] == "") ==>
      SelectedText(selected, templates) == TemplateContent(selected)
  {
    assert CustomName !in BuiltInNames;
    TemplateContentSpec(selected);
  }

  /** Without a stored selection the editor is never blank: it shows the stored or the
      built-in "Message 1". */
  lemma LoadedTextDefault(templates: Option<map<string, string>>)
    ensures LoadedText(None, templates) != ""
    ensures LoadedText(None, templates) == SelectedText(FirstTemplate, templates)
  {
    assert FirstTemplate in BuiltInNames && FirstTemplate != CustomName;
    TemplateContentSpec(FirstTemplate);
  }

  /** `handleTemplateSelection`: shows the text for the picked name and stores the pick. */
  method SelectTemplate(st: Store, selected: string) returns (shown: string)
    modifies st
    ensures shown == SelectedText(selected, TemplatesIn(old(st.items)))
    ensures st.items == old(st.items)[SelectedTemplate := Text(selected)]
  {
    var templates := TemplatesIn(st.items);
    if selected == CustomName {
      shown := StoredOr(templates, CustomName, "");
    } else {
      shown := StoredOr(templates, selected, TemplateContent(selected));
    }
    st.items := st.items[SelectedTemplate := Text(selected)];
  }

  // ---------------------------------------------------------------------------
  // handleSaveMessageButtonClick: one key of the templates map

  /** `templates[selected] = text` on the stored map, or on `{}` when none is stored. */
  function SavedTemplates(templates: Option<map<string, string>>, selected: string, text: string): (m: map<string, string>)
    ensures selected in m && m[selected] == text
    ensures forall k :: k != selected ==> (k in m <==> templates.Some? && k in templates.value)
    ensures forall k :: k != selected && k in m ==> m[k] == templates.value[k]
  {
    (if templates.Some? then templates.value else map[])[selected := text]
  }

  /** The storage after saving: the updated map and the selection; nothing else changes. */
  function SavedItems(items: map<string, Value>, selected: string, text: string): (r: map<string, Value>)
    ensures TemplatesIn(r) == Some(SavedTemplates(TemplatesIn(items), selected, text))
    ensures SelectedIn(r) == Some(selected)
    ensures r - {MessageTemplates, SelectedTemplate} == items - {MessageTemplates, SelectedTemplate}
  {
    items[MessageTemplates := TextMap(SavedTemplates(TemplatesIn(items), selected, text))][SelectedTemplate := Text(selected)]
  }

  /** `handleSaveMessageButtonClick` */
  method SaveTemplate(st: Store, selected: string, text: string)
    modifies st
    ensures st.items == SavedItems(old(st.items), selected, text)
  {
    var templates := TemplatesIn(st.items);
    var updated := if templates.Some? then templates.value else map[];
    updated := updated[selected := text];
    st.items := st.items[MessageTemplates := TextMap(updated)][SelectedTemplate := Text(selected)];
  }

  /** Saving under a name and then picking it shows the saved text; an empty text shows
      what the name shows with nothing stored under it. */
  lemma SelectAfterSave(templates: Option<map<string, string>>, selected: string, text: string)
    ensures SelectedText(selected, Some(SavedTemplates(templates, selected, text)))
      == if text != "" then text else SelectedText(selected, None)
  {
  }

  /** Saving and then opening the popup shows the same as picking the saved name. */
  lemma SaveThenLoad(items: map<string, Value>, selected: string, text: string)
    requires selected != ""
    ensures LoadedText(SelectedIn(SavedItems(items, selected, text)), TemplatesIn(SavedItems(items, selected, text)))
      == if text != "" then text else SelectedText(selected, None)
  {
    var m := SavedTemplates(TemplatesIn(items), selected, text);
    LoadSelected(selected, Some(m));
    SelectAfterSave(TemplatesIn(items), selected, text);
  }

  lemma LoadSelected(selected: string, templates: Option<map<string, string>>)
    requires selected != ""
    ensures LoadedText(Some(selected), templates) == SelectedText(selected, templates)
  {
  }

  // ---------------------------------------------------------------------------
  // loadAllSettings / saveSettings / handleCollectButtonClick: the settings form

  /** The ten fields of the settings form, as numbers shown or as the text typed. */
  datatype SettingsFields<T> = SettingsFields(
    maxLinks: T,
    retryAttempts: T,
    collectionInterval: T,
    collectionBatchSize: T,
    collectionPauseTime: T,
    messagingInterval: T,
    messagingBatchSize: T,
    messagingPauseTime: T,
    dailyCollectionLimit: T,
    dailyMessageLimit: T)

  const DefaultSettings: SettingsFields<int> := SettingsFields(2, 3, 30, 10, 5, 60, 5, 15, 100, 50)

  /** `loadAllSettings`: the form is left as it is without a stored record; otherwise
      each field shows `settings.field || default`. */
  function ShownSettings(stored: Option<Settings>): Option<SettingsFields<int>> {
    match stored
    case None => None
    case Some(s) =>
      var d := DefaultSettings;
      Some(SettingsFields(
        OrDefault(s.maxLinks, d.maxLinks), OrDefault(s.retryAttempts, d.retryAttempts),
        OrDefault(s.collectionInterval, d.collectionInterval), OrDefault(s.collectionBatchSize, d.collectionBatchSize),
        OrDefault(s.collectionPauseTime, d.collectionPauseTime), OrDefault(s.messagingInterval, d.messagingInterval),
        OrDefault(s.messagingBatchSize, d.messagingBatchSize), OrDefault(s.messagingPauseTime, d.messagingPauseTime),
        OrDefault(s.dailyCollectionLimit, d.dailyCollectionLimit), OrDefault(s.dailyMessageLimit, d.dailyMessageLimit)))
  }

  /** `parseInt(text)` as it lands in storage: NaN is a missing number. */
  function ParsedSetting(text: string): Option<int> {
    match ParseInt(text)
    case Finite(v) => Some(v)
    case NaN => None
  }

  /** `saveSettings`: every field typed is stored through `parseInt`. */
  function SavedSettings(typed: SettingsFields<string>): Settings {
    Settings(
      ParsedSetting(typed.maxLinks), ParsedSetting(typed.retryAttempts),
      ParsedSetting(typed.collectionInterval), ParsedSetting(typed.collectionBatchSize),
      ParsedSetting(typed.collectionPauseTime), ParsedSetting(typed.messagingInterval),
      ParsedSetting(typed.messagingBatchSize), ParsedSetting(typed.messagingPauseTime),
      ParsedSetting(typed.dailyCollectionLimit), ParsedSetting(typed.dailyMessageLimit))
  }

  /** A number typed into a field comes back after saving and reopening, except 0, which
      comes back as the default; a blank field also comes back as the default. */
  lemma SettingRoundTrip(n: nat, fallback: int)
    ensures OrDefault(ParsedSetting(Decimal(n)), fallback) == if n == 0 then fallback else n
    ensures OrDefault(ParsedSetting(""), fallback) == fallback
  {
    ParseIntAllDigits(Decimal(n));
  }

  /** Non-zero typed values appear unchanged: `Kept(n, d)` is what a field typed as `n`
      shows after a save, for default `d`. */
  function Kept(n: nat, d: int): int {
    if n == 0 then d else n
  }

  /** Saving the form with each field typed as a decimal number and reopening it shows
      the same numbers, with every 0 replaced by that field's default. */
  lemma SaveThenShowSettings(v: SettingsFields<nat>)
    ensures ShownSettings(Some(SavedSettings(SettingsFields(
      Decimal(v.maxLinks), Decimal(v.retryAttempts), Decimal(v.collectionInterval), Decimal(v.collectionBatchSize),
      Decimal(v.collectionPauseTime), Decimal(v.messagingInterval), Decimal(v.messagingBatchSize),
      Decimal(v.messagingPauseTime), Decimal(v.dailyCollectionLimit), Decimal(v.dailyMessageLimit)))))
      == Some(SettingsFields(
        Kept(v.maxLinks, 2), Kept(v.retryAttempts, 3), Kept(v.collectionInterval, 30), Kept(v.collectionBatchSize, 10),
        Kept(v.collectionPauseTime, 5), Kept(v.messagingInterval, 60), Kept(v.messagingBatchSize, 5),
        Kept(v.messagingPauseTime, 15), Kept(v.dailyCollectionLimit, 100), Kept(v.dailyMessageLimit, 50)))
  {
    var d := DefaultSettings;
    SettingRoundTrip(v.maxLinks, d.maxLinks);
    SettingRoundTrip(v.retryAttempts, d.retryAttempts);
    SettingRoundTrip(v.collectionInterval, d.collectionInterval);
    SettingRoundTrip(v.collectionBatchSize, d.collectionBatchSize);
    SettingRoundTrip(v.collectionPauseTime, d.collectionPauseTime);
    SettingRoundTrip(v.messagingInterval, d.messagingInterval);
    SettingRoundTrip(v.messagingBatchSize, d.messagingBatchSize);
    SettingRoundTrip(v.messagingPauseTime, d.messagingPauseTime);
    SettingRoundTrip(v.dailyCollectionLimit, d.dailyCollectionLimit);
    SettingRoundTrip(v.dailyMessageLimit, d.dailyMessageLimit);
  }

  /** The "collect-links" request the collect button sends. */
  datatype CollectLinksRequest = CollectLinksRequest(profileLinks: seq<string>, maxLinks: int, retryAttempts: int)

  /** `handleCollectButtonClick`: no request without seed profiles; otherwise the stored
      profiles with `maxLinks || 2` and `retryAttempts || 3`. */
  function CollectRequest(items: map<string, Value>): (r: Option<CollectLinksRequest>)
    ensures r.None? <==> ProfilesIn(items) == []
    ensures r.Some? ==> r.value.profileLinks == ProfilesIn(items)
  {
    var profiles := ProfilesIn(items);
    if profiles == [] then None
    else
      var stored := SettingsIn(items);
      var maxLinks := if stored.Some? then stored.value.maxLinks else None;
      var retryAttempts := if stored.Some? then stored.value.retryAttempts else None;
      Some(CollectLinksRequest(profiles, OrDefault(maxLinks, 2), OrDefault(retryAttempts, 3)))
  }

  /** The request carries the numbers the settings form shows (defaults 2 and 3 when
      no settings are stored), and `maxLinks` is never 0, so the background's own
      `maxLinks || 2` keeps it as sent. */
  lemma CollectRequestSettings(items: map<string, Value>)
    requires ProfilesIn(items) != []
    ensures var r := CollectRequest(items).value;
      var shown := if SettingsIn(items).Some? then ShownSettings(SettingsIn(items)).value else DefaultSettings;
      r.maxLinks == shown.maxLinks && r.retryAttempts == shown.retryAttempts &&
      Background.EffectiveMaxLinks(Some(r.maxLinks)) == r.maxLinks
  {
  }

  // ---------------------------------------------------------------------------
  // handleSendMessages

  /** The "send-messages" request as written: the stored templates, or the built-in ones
      when none are stored, and no `messageTemplate` field at all. */
  function SendRequestAsWritten(items: map<string, Value>): (r: SendMessagesRequest)
    ensures r.messageTemplate.None?
    ensures TemplatesIn(items).Some? ==> r.messageTemplates == TemplatesIn(items).value
    ensures TemplatesIn(items).None? ==> r.messageTemplates == DefaultTemplates()
  {
    var templates := TemplatesIn(items);
    SendMessagesRequest(None, if templates.Some? then templates.value else DefaultTemplates())
  }

  /** The request carrying the text the popup shows for the selected template. */
  function SendRequest(items: map<string, Value>): (r: SendMessagesRequest)
    ensures r.messageTemplate == Some(LoadedText(SelectedIn(items), TemplatesIn(items)))
    ensures r.messageTemplates == SendRequestAsWritten(items).messageTemplates
  {
    SendRequestAsWritten(items).(messageTemplate := Some(LoadedText(SelectedIn(items), TemplatesIn(items))))
  }

  /** End to end for one queued target. As written the background script passes no
      template on, so every send that reaches the editor throws, types nothing, and is
      recorded "Failed" with the target kept queued. With the shown template sent along,
      the send settles to its outcome. */
  lemma SendRequestTemplate(items: map<string, Value>, t: Target, obs: ContentScript.SendObservations)
    ensures var data := Background.MessageDataAsWritten(t, SendRequestAsWritten(items).messageTemplate);
      var reply := ContentScript.Respond("send-message", ContentScript.SendResult(data, obs));
      ContentScript.Types(obs) ==>
        reply == ThrownError && Background.StatusAsWritten(reply) == Failed && !Background.RemovesAsWritten(reply)
    ensures var data := Background.MessageDataFor(t, SendRequest(items).messageTemplate);
      data.messageTemplate == Some(LoadedText(SelectedIn(items), TemplatesIn(items)))
      && ContentScript.SendResult(data, obs) == Some(ContentScript.Outcome(obs))
  {
    ContentScript.MissingTemplateThrows(Background.MessageDataAsWritten(t, SendRequestAsWritten(items).messageTemplate), obs);
    Background.MessageDataForSpec(t, SendRequest(items).messageTemplate);
  }

  // ---------------------------------------------------------------------------
  // handleClearButtonClick: everything but the sent-message log goes

  /** The storage after clearing: only the `sentMessages` entry, when there was one. */
  function ClearedItems(items: map<string, Value>): (r: map<string, Value>)
    ensures r.Keys <= {SentMessages}
    ensures SentMessages in r <==> SentMessages in items
    ensures SentMessages in r ==> r[SentMessages] == items[SentMessages]
  {
    if SentMessages in items then map[SentMessages := items[SentMessages]] else map[]
  }

  /** `handleClearButtonClick` */
  method ClearKeepingSent(st: Store)
    modifies st
    ensures st.items == ClearedItems(old(st.items))
  {
    var kept := if SentMessages in st.items then Some(st.items[SentMessages]) else None;
    st.Clear();
    if kept.Some? {
      st.items := st.items[SentMessages := kept.value];
    }
  }

  /** After clearing, no profile, target, template, selection or setting is left, so
      the editor falls back to the built-in "Message 1". */
  lemma ClearForgets(items: map<string, Value>)
    ensures ProfilesIn(ClearedItems(items)) == [] && TargetsIn(ClearedItems(items)) == []
    ensures TemplatesIn(ClearedItems(items)).None? && SelectedIn(ClearedItems(items)).None?
    ensures SettingsIn(ClearedItems(items)).None?
    ensures LoadedText(SelectedIn(ClearedItems(items)), TemplatesIn(ClearedItems(items))) == TemplateContent(FirstTemplate)
  {
    var r := ClearedItems(items);
    SentMessagesKeyApart();
    assert UserProfileLinks !in r && TargetProfiles !in r && SettingsKey !in r;
    ClearedNothingStored(r);
  }

  /** With no selection and no templates stored, the editor shows "Message 1". */
  lemma ClearedNothingStored(r: map<string, Value>)
    requires SelectedTemplate !in r && MessageTemplates !in r
    ensures LoadedText(SelectedIn(r), TemplatesIn(r)) == TemplateContent(FirstTemplate)
  {
  }

  // ---------------------------------------------------------------------------
  // handleDownloadCSVButtonClick: the CSV text, built line by line

  const CsvPrefix := "data:text/csv;charset=utf-8,"
  const CsvColumns: seq<string> := ["Name", "LinkedIn URL", "Company", "Job Title", "Origin Connection", "Origin URL"]

  /** `"${field}"`: wrapped in double quotes; quotes inside are not escaped. */
  function Quote(field: string): string {
    ['"'] + field + ['"']
  }

  function QuoteAll(fields: seq<string>): (r: seq<string>)
    ensures |r| == |fields|
    ensures forall i :: 0 <= i < |r| ==> r[i] == Quote(fields[i])
  {
    seq(|fields|, i requires 0 <= i < |fields| => Quote(fields[i]))
  }

  /** The six cells of a target's line; the last column shows `originUrl`. */
  function CsvCells(t: Target, originUrl: Option<string>): (r: seq<string>)
    ensures |r| == |CsvColumns|
  {
    [t.connection.name, t.connection.url, t.companyName, Render(t.jobTitle), Render(t.origin), Render(originUrl)]
  }

  /** A target's line as written: the last column reads `profile.originUrl`, which no
      target has, so it always shows "undefined". */
  function RowAsWritten(t: Target): string {
    Join(QuoteAll(CsvCells(t, None)), ',')
  }

  /** A target's line with the origin URL the target does carry. */
  function Row(t: Target): string {
    Join(QuoteAll(CsvCells(t, Some(t.connection.originUrl))), ',')
  }

  /** The header line: the six column names. */
  function CsvHeader(): string {
    Join(CsvColumns, ',')
  }

  /** The lines after the header, each followed by a line break. */
  function Rows(ts: seq<Target>): string
    decreases |ts|
  {
    if ts == [] then [] else Rows(ts[..|ts| - 1]) + Row(ts[|ts| - 1]) + "\n"
  }

  /** The CSV file for the stored targets: the header, then one line per target;
      nothing without targets. */
  function CsvText(ts: seq<Target>): (r: Option<string>)
    ensures r.None? <==> ts == []
  {
    if ts == [] then None else Some(CsvHeader() + "\n" + Rows(ts))
  }

  /** `handleDownloadCSVButtonClick`: the data URL of the CSV file, or nothing without
      targets. */
  method BuildCsv(ts: seq<Target>) returns (url: Option<string>)
    ensures url.None? <==> ts == []
    ensures url.Some? ==> url.value == CsvPrefix + CsvText(ts).value
  {
    if ts == [] {
      return None;
    }
    var head := CsvHeader() + "\n";
    var content := AppendRows(CsvPrefix + head, ts);
    Regroup(CsvPrefix, head, Rows(ts));
    url := Some(content);
  }

  lemma Regroup(a: string, b: string, c: string)
    ensures a + b + c == a + (b + c)
  {
  }

  /** The `forEach` loop: appends each target's line and a line break. */
  method AppendRows(head: string, ts: seq<Target>) returns (content: string)
    ensures content == head + Rows(ts)
  {
    content := head;
    var i := 0;
    while i < |ts|
      invariant i <= |ts|
      invariant content == head + Rows(ts[..i])
    {
      assert ts[..i + 1][..i] == ts[..i];
      content := content + Row(ts[i]) + "\n";
      i := i + 1;
    }
    assert ts[..i] == ts;
  }

  /** The cells of a line hold no comma and no line break. */
  predicate PlainCells(cells: seq<string>) {
    forall i :: 0 <= i < |cells| ==> ',' !in cells[i] && '\n' !in cells[i]
  }

  /** With plain cells, a line splits at its commas into exactly the quoted cells. */
  lemma RowCells(cells: seq<string>)
    requires |cells| >= 1 && PlainCells(cells)
    ensures Split(Join(QuoteAll(cells), ','), ',') == QuoteAll(cells)
    ensures '\n' !in Join(QuoteAll(cells), ',')
  {
    var q := QuoteAll(cells);
    forall i | 0 <= i < |q| ensures ',' !in q[i] && '\n' !in q[i] {
      assert q[i] == ['"'] + cells[i] + ['"'];
    }
    SplitJoin(q, ',');
    JoinFree(q, ',', '\n');
  }

  /** As written, the last of the six cells is always the text "undefined"; with the
      origin URL the target carries, it is that URL. */
  lemma CsvOriginColumn(t: Target)
    requires PlainCells(CsvCells(t, Some(t.connection.originUrl)))
    ensures |Split(RowAsWritten(t), ',')| == 6 && Split(RowAsWritten(t), ',')[5] == Quote("undefined")
    ensures |Split(Row(t), ',')| == 6 && Split(Row(t), ',')[5] == Quote(t.connection.originUrl)
  {
    var cells := CsvCells(t, Some(t.connection.originUrl));
    var asWritten := CsvCells(t, None);
    assert forall i :: 0 <= i < 5 ==> asWritten[i] == cells[i];
    assert ',' !in "undefined" && '\n' !in "undefined";
    RowCells(cells);
    RowCells(asWritten);
  }

  function RowList(ts: seq<Target>): (r: seq<string>)
    ensures |r| == |ts|
    ensures forall i :: 0 <= i < |ts| ==> r[i] == Row(ts[i])
  {
    seq(|ts|, i requires 0 <= i < |ts| => Row(ts[i]))
  }

  lemma RowListSnoc(ts: seq<Target>)
    requires ts != []
    ensures RowList(ts) == RowList(ts[..|ts| - 1]) + [Row(ts[|ts| - 1])]
  {
  }

  /** A first line and the lines after it are the line-break separated pieces. */
  lemma {:induction false} RowsJoin(h: string, ts: seq<Target>)
    ensures h + "\n" + Rows(ts) == Join([h] + RowList(ts), '\n') + "\n"
    decreases |ts|
  {
    if ts != [] {
      var init := ts[..|ts| - 1];
      var last := Row(ts[|ts| - 1]);
      var lines := [h] + RowList(init);
      RowsJoin(h, init);
      RowListSnoc(ts);
      assert [h] + RowList(ts) == lines + [last];
      JoinSnoc(lines, last, '\n');
      LineAfter(h + "\n", Rows(init), last);
    }
  }

  lemma LineAfter(head: string, rows: string, last: string)
    ensures head + (rows + last + "\n") == head + rows + last + "\n"
  {
  }

  /** Lines without line breaks, joined and ended by one, split back into those lines
      and an empty last piece. */
  lemma LinesSplit(lines: seq<string>)
    requires |lines| >= 1
    requires forall i :: 0 <= i < |lines| ==> '\n' !in lines[i]
    ensures Split(Join(lines, '\n') + "\n", '\n') == lines + [""]
  {
    JoinSnoc(lines, "", '\n');
    assert Join(lines, '\n') + "\n" == Join(lines, '\n') + ['\n'] + "";
    assert forall i :: 0 <= i < |lines + [""]| ==> '\n' !in (lines + [""])[i];
    SplitJoin(lines + [""], '\n');
  }

  /** The line of a target with plain cells holds no line break. */
  lemma RowsPlain(ts: seq<Target>)
    requires forall i :: 0 <= i < |ts| ==> PlainCells(CsvCells(ts[i], Some(ts[i].connection.originUrl)))
    ensures forall i :: 0 <= i < |ts| ==> '\n' !in RowList(ts)[i]
  {
    forall i | 0 <= i < |ts| ensures '\n' !in RowList(ts)[i] {
      RowCells(CsvCells(ts[i], Some(ts[i].connection.originUrl)));
    }
  }

  /** With plain cells, the CSV text is the header line, one line per target in order,
      and the empty piece after the last line break. */
  lemma CsvLines(ts: seq<Target>)
    requires ts != []
    requires forall i :: 0 <= i < |ts| ==> PlainCells(CsvCells(ts[i], Some(ts[i].connection.originUrl)))
    ensures Split(CsvText(ts).value, '\n') == [CsvHeader()] + RowList(ts) + [""]
    ensures |Split(CsvText(ts).value, '\n')| == |ts| + 2
  {
    var h := CsvHeader();
    var lines := [h] + RowList(ts);
    RowsJoin(h, ts);
    HeaderPlain();
    RowsPlain(ts);
    assert forall i :: 0 <= i < |lines| ==> '\n' !in lines[i];
    LinesSplit(lines);
  }

  lemma HeaderPlain()
    ensures '\n' !in CsvHeader()
  {
    assert forall i :: 0 <= i < |CsvColumns| ==> '\n' !in CsvColumns[i];
    JoinFree(CsvColumns, ',', '\n');
  }
}
