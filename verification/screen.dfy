/**
 The shared-records screen: its component state and the handlers that change
 it. The store getters and the import helpers it awaits are oracles: each call
 is recorded in a trace and its reply is an input.
 */
module Screen {
  import opened Outcomes
  import opened Json

  datatype Contact = Contact(key: string, nickname: string, picture: string, external: bool)

  /** One entry of the rendered list: a contact and the records shared with it. */
  datatype ContactGroup = ContactGroup(contact: Contact, records: seq<Record>)

  /** The component state. `uploadError` starts out unset, which reads as false. */
  datatype State = State(
    loading: bool,
    mounted: bool,
    modalVisible: bool,
    uploadError: bool,
    contacts: seq<ContactGroup>)

  const Initial := State(true, false, false, false, [])

  /** The external calls the screen awaits, with the arguments it passes. */
  datatype Call =
    | KeysExist
    | SharedPublicKey
    | PublicKeyPem
    | IpfsAdd(pem: string)
    | SetSharedPublicKey(hash: string)
    | MySharedInfo
    | LoadContacts
    | LoadSharedRecords
    | LoadExternalRecords
    | QrCodeRecordHelper(data: string)

  datatype Alert = KeysNotPresent | QrCodeScanError

  /** A navigation request: route name, `type` parameter and `data` parameter. */
  datatype Navigation = Navigation(route: string, kind: string, data: string)

  /** Everything one handler run does: the final state, the calls made in
      order, the alerts shown and the navigation requested, if any. */
  datatype Effects = Effects(state: State, calls: seq<Call>, alerts: seq<Alert>, navigation: Option<Navigation>)

  /** `groupByContact(contacts, sharedRecords, externalRecords)`; its code is
      not part of this model, so it is taken as a parameter. */
  type Grouping = (seq<Contact>, seq<Record>, seq<Record>) -> seq<ContactGroup>

  /** Replies of the three store getters `reloadRecords` awaits. */
  datatype StoreReplies = StoreReplies(
    contacts: Reply<seq<Contact>>,
    sharedRecords: Reply<seq<Record>>,
    externalRecords: Reply<seq<Record>>)

  const ReloadCalls := [LoadContacts, LoadSharedRecords, LoadExternalRecords]

  /** All three getters resolved. */
  predicate AllLoaded(replies: StoreReplies) {
    replies.contacts.Ok? && replies.sharedRecords.Ok? && replies.externalRecords.Ok?
  }

  /** `onShareKeyUploadFailed`: show the modal in its error form. `setState`
      merges, so nothing else changes. */
  function OnShareKeyUploadFailed(s: State): (r: State)
    ensures r.modalVisible && r.uploadError
    ensures r.loading == s.loading && r.mounted == s.mounted && r.contacts == s.contacts
  {
    s.(modalVisible := true, uploadError := true)
  }

  /** `hideModal`: close the modal; `uploadError` and the rest are kept. */
  function HideModal(s: State): (r: State)
    ensures !r.modalVisible
    ensures r.uploadError == s.uploadError
    ensures r.loading == s.loading && r.mounted == s.mounted && r.contacts == s.contacts
  {
    s.(modalVisible := false)
  }

  /** `reloadRecords`: await the three getters in order, group, then set
      `contacts` and clear `loading`. A rejected getter rejects the method's
      promise, which no caller handles: the remaining calls are skipped and
      the state is left as it was. */
  function ReloadRecords(s: State, replies: StoreReplies, group: Grouping): (r: Effects)
    ensures r.alerts == [] && r.navigation == None
    ensures 1 <= |r.calls| <= 3 && r.calls == ReloadCalls[..|r.calls|]
    ensures |r.calls| >= 2 <==> replies.contacts.Ok?
    ensures |r.calls| == 3 <==> replies.contacts.Ok? && replies.sharedRecords.Ok?
    ensures AllLoaded(replies) ==>
      && r.state.contacts == group(replies.contacts.value, replies.sharedRecords.value, replies.externalRecords.value)
      && !r.state.loading
      && r.state.mounted == s.mounted
      && r.state.modalVisible == s.modalVisible
      && r.state.uploadError == s.uploadError
    ensures !AllLoaded(replies) ==> r.state == s
  {
    match replies.contacts
    case Fail => Effects(s, [LoadContacts], [], None)
    case Ok(contacts) =>
      match replies.sharedRecords
      case Fail => Effects(s, [LoadContacts, LoadSharedRecords], [], None)
      case Ok(shared) =>
        match replies.externalRecords
        case Fail => Effects(s, ReloadCalls, [], None)
        case Ok(external) =>
          Effects(s.(contacts := group(contacts, shared, external), loading := false), ReloadCalls, [], None)
  }

  /** What `qrCodeRecordHelper` resolves with: `null`/`undefined` (reading
      `record` from it throws), or an object whose `record` is a record or
      absent. */
  datatype Scanned = NoObject | Scanned(record: Option<Record>)

  /** `onQRCodeScanned`: reload when the helper's result carries a record,
      otherwise show the scan-error alert. A rejected helper or a throwing
      destructuring ends the unhandled promise chain with no effect. */
  function OnQrCodeScanned(s: State, data: string, helper: Reply<Scanned>, replies: StoreReplies, group: Grouping): (r: Effects)
    ensures |r.calls| >= 1 && r.calls[0] == QrCodeRecordHelper(data)
    ensures r.navigation == None
    ensures LoadContacts in r.calls <==> helper.Ok? && helper.value.Scanned? && helper.value.record.Some?
    ensures r.alerts == if helper == Ok(Scanned(None)) then [QrCodeScanError] else []
    ensures helper.Ok? && helper.value.Scanned? && helper.value.record.Some? ==>
      var reload := ReloadRecords(s, replies, group);
      r.state == reload.state && r.calls == [QrCodeRecordHelper(data)] + reload.calls
    ensures LoadContacts !in r.calls ==> r.state == s && r.calls == [QrCodeRecordHelper(data)]
  {
    var helperCall := [QrCodeRecordHelper(data)];
    match helper
    case Ok(Scanned(Some(_))) =>
      var reload := ReloadRecords(s, replies, group);
      Effects(reload.state, helperCall + reload.calls, [], None)
    case Ok(Scanned(None)) => Effects(s, helperCall, [QrCodeScanError], None)
    case _ => Effects(s, helperCall, [], None)
  }

  /** Scanning a valid shared record refreshes the list when the getters
      resolve; scanning anything else leaves the list as it was. */
  lemma ScanRefreshesContacts(s: State, data: string, helper: Reply<Scanned>, replies: StoreReplies, group: Grouping)
    ensures var r := OnQrCodeScanned(s, data, helper, replies, group);
      && (helper.Ok? && helper.value.Scanned? && helper.value.record.Some? && AllLoaded(replies) ==>
            !r.state.loading
            && r.state.contacts == group(replies.contacts.value, replies.sharedRecords.value, replies.externalRecords.value))
      && (!(helper.Ok? && helper.value.Scanned? && helper.value.record.Some?) ==> r.state == s)
  {
  }

  /** After an upload failure, closing the modal still leaves `uploadError`
      set; only `modalVisible` is reset. */
  lemma HideModalKeepsUploadError(s: State)
    ensures var r := HideModal(OnShareKeyUploadFailed(s));
      !r.modalVisible && r.uploadError && r.contacts == s.contacts && r.loading == s.loading
  {
  }

  /** `componentDidMount` on a fresh screen: loading ends exactly when every
      getter resolves. */
  lemma MountLoadsOnSuccess(replies: StoreReplies, group: Grouping)
    ensures var r := ReloadRecords(Initial, replies, group);
      r.state.loading <==> !AllLoaded(replies)
  {
  }
}
