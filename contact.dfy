/** resource/public/js/components/contact.js: the contact list (fetched,
    sorted by due time and rendered) and the contact item (its texts and the
    "contacted" action with its request-status display). */
module Contact {
  import opened Wrappers
  import opened Js
  import Time
  import Decimal
  import Auth
  import Routing

  /** A contact as the contacts endpoint returns it. */
  datatype Contact = Contact(id: int, full_name: string, frequency_days: int, due_at: int)

  /** api.requestStatus. */
  datatype RequestStatus = Idle | Pending | Success | Error

  /** `status.toLowerCase()`: the suffix of the `contacted-<status>` class. */
  function StatusClass(s: RequestStatus): string {
    match s
    case Idle => "idle"
    case Pending => "pending"
    case Success => "success"
    case Error => "error"
  }

  /** The JSON a contact-list response carries: an array of contacts, or any
      other value (an error object, say), which has no `sort` method. */
  datatype ListBody = ContactArray(contacts: seq<Contact>) | NotAList

  /** The response to the contact-list request: the request raised (fetch
      rejected, or fetchContactList found no stored token), or a status and the
      body read by response.json(), which raises on text that is not JSON. */
  datatype ListResponse = ListFailed(error: Exception) | ListResponse(status: int, body: Result<ListBody, Exception>)

  /** The response to the PATCH of contacted_at: the request raised, or the
      response's `ok` and the body (the updated contact) read by response.json(). */
  datatype PatchResponse = PatchFailed | PatchResponse(ok: bool, body: Result<Contact, Exception>)

  // Sorting: contacts.sort((a, b) => a.due_at - b.due_at), a stable sort.

  /** Each contact is due no later than the next one. */
  predicate SortedByDueAt(s: seq<Contact>) {
    |s| <= 1 || (s[0].due_at <= s[1].due_at && SortedByDueAt(s[1..]))
  }

  /** Sorted means any earlier contact is due no later than any later one. */
  lemma {:induction false} SortedIsOrdered(s: seq<Contact>, i: int, j: int)
    requires SortedByDueAt(s) && 0 <= i < j < |s|
    ensures s[i].due_at <= s[j].due_at
  {
    if i == 0 {
      if j > 1 {
        SortedIsOrdered(s[1..], 0, j - 1);
      }
    } else {
      SortedIsOrdered(s[1..], i - 1, j - 1);
    }
  }

  /** Inserts `c` before the first element that is not due earlier than it. */
  function InsertByDueAt(c: Contact, s: seq<Contact>): (r: seq<Contact>)
    requires SortedByDueAt(s)
    ensures SortedByDueAt(r)
    ensures multiset(r) == multiset(s) + multiset{c}
    ensures |r| == |s| + 1 && (r[0] == c || (s != [] && r[0] == s[0]))
  {
    if s == [] || c.due_at <= s[0].due_at then [c] + s
    else
      assert s == [s[0]] + s[1..];
      var rest := InsertByDueAt(c, s[1..]);
      assert ([s[0]] + rest)[1..] == rest;
      [s[0]] + rest
  }

  /** The order Array.prototype.sort produces with the comparator
      `a.due_at - b.due_at`: ascending due time, ties kept in input order. */
  function SortByDueAt(s: seq<Contact>): (r: seq<Contact>)
    ensures SortedByDueAt(r)
    ensures multiset(r) == multiset(s)
    ensures |r| == |s|
  {
    if s == [] then []
    else
      assert s == [s[0]] + s[1..];
      InsertByDueAt(s[0], SortByDueAt(s[1..]))
  }

  /** The contacts of `s` due at `d`, in their order in `s`. */
  function DueAt(s: seq<Contact>, d: int): seq<Contact> {
    if s == [] then [] else (if s[0].due_at == d then [s[0]] else []) + DueAt(s[1..], d)
  }

  lemma {:induction false} DueAtConcat(a: seq<Contact>, b: seq<Contact>, d: int)
    ensures DueAt(a + b, d) == DueAt(a, d) + DueAt(b, d)
  {
    if a != [] {
      assert (a + b)[1..] == a[1..] + b;
      DueAtConcat(a[1..], b, d);
    } else {
      assert a + b == b;
    }
  }

  /** Putting a contact with another due time in front of a sequence does not
      disturb where the ties at `d` come out. */
  lemma TieCommutes(x: Contact, c: Contact, r: seq<Contact>, t: seq<Contact>, d: int)
    requires x.due_at != c.due_at
    requires DueAt(r, d) == DueAt([c], d) + DueAt(t, d)
    ensures DueAt([x] + r, d) == DueAt([c], d) + DueAt([x] + t, d)
  {
    assert ([x] + r)[1..] == r && ([x] + t)[1..] == t;
    assert [c][1..] == [];
    if x.due_at == d {
      assert DueAt([c], d) == [];
    }
  }

  lemma {:induction false} InsertKeepsTies(c: Contact, s: seq<Contact>, d: int)
    requires SortedByDueAt(s)
    ensures DueAt(InsertByDueAt(c, s), d) == DueAt([c], d) + DueAt(s, d)
  {
    if s == [] || c.due_at <= s[0].due_at {
      assert InsertByDueAt(c, s) == [c] + s;
      assert ([c] + s)[1..] == s && [c][1..] == [];
    } else {
      var r := InsertByDueAt(c, s[1..]);
      InsertKeepsTies(c, s[1..], d);
      TieCommutes(s[0], c, r, s[1..], d);
      assert InsertByDueAt(c, s) == [s[0]] + r;
      assert [s[0]] + s[1..] == s;
    }
  }

  /** The sort is stable: contacts due at the same time keep their relative order. */
  lemma {:induction false} SortIsStable(s: seq<Contact>, d: int)
    ensures DueAt(SortByDueAt(s), d) == DueAt(s, d)
  {
    if s != [] {
      SortIsStable(s[1..], d);
      InsertKeepsTies(s[0], SortByDueAt(s[1..]), d);
      assert s == [s[0]] + s[1..];
      DueAtConcat([s[0]], s[1..], d);
    }
  }

  // Texts.

  /** setFrequencyDays: `(${frequencyDays}d 🕔)`. */
  function FrequencyText(frequencyDays: int): (t: string)
    ensures |t| > 5 && t[0] == '(' && t[|t| - 4..] == "d \U{1F554})"
  {
    "(" + Decimal.FromInt(frequencyDays) + "d \U{1F554})"
  }

  /** setDueAt: `${time.nDaysDiff(dueAt, time.nowSeconds())}d`. */
  function DueAtText(dueAt: int, clockMs: int): (t: string)
    ensures |t| > 1 && t[|t| - 1] == 'd'
  {
    Decimal.FromInt(Time.NDaysDiff(dueAt, Some(Time.NowSeconds(clockMs)), clockMs)) + "d"
  }

  /** The due-at text is the day count, read back by Number(), followed by `d`. */
  lemma DueAtTextReadsBack(dueAt: int, clockMs: int)
    ensures var t := DueAtText(dueAt, clockMs);
            |t| > 1 && t[|t| - 1] == 'd'
            && Decimal.ToInt(t[..|t| - 1]) == Time.NDaysDiff(dueAt, Some(Time.NowSeconds(clockMs)), clockMs)
  {
    var t := DueAtText(dueAt, clockMs);
    var n := Time.NDaysDiff(dueAt, Some(Time.NowSeconds(clockMs)), clockMs);
    assert t[..|t| - 1] == Decimal.FromInt(n);
    Decimal.FromIntRoundTrip(n);
  }

  /** The frequency text is `(`, the number of days, `d 🕔)`. */
  lemma FrequencyTextReadsBack(days: int)
    ensures var t := FrequencyText(days);
            |t| > 5 && t[0] == '(' && t[|t| - 4..] == "d \U{1F554})"
            && Decimal.ToInt(t[1..|t| - 4]) == days
  {
    var t := FrequencyText(days);
    assert t[1..|t| - 4] == Decimal.FromInt(days);
    Decimal.FromIntRoundTrip(days);
  }

  // Request-status display.

  /** A `.contacted-status.contacted-<status>` element of the item's template,
      and whether it has the `display-none` class. */
  datatype StatusElement = StatusElement(status: string, hidden: bool)

  /** querySelector(`.contacted-status.contacted-${status}`): the first such element. */
  function FirstMatch(els: seq<StatusElement>, status: string): (r: Option<nat>)
    ensures r.Some? ==> r.value < |els| && els[r.value].status == status
    ensures r.Some? ==> forall k :: 0 <= k < r.value ==> els[k].status != status
    ensures r.None? ==> forall k :: 0 <= k < |els| ==> els[k].status != status
  {
    if els == [] then None
    else if els[0].status == status then Some(0)
    else match FirstMatch(els[1..], status)
      case None => None
      case Some(j) => Some(j + 1)
  }

  /** The elements after setContactedRequestStatus(status): all hidden, except
      the first one for `status`, if there is one. */
  function ShowStatus(els: seq<StatusElement>, status: RequestStatus): (r: seq<StatusElement>)
    ensures |r| == |els| && forall k :: 0 <= k < |r| ==> r[k].status == els[k].status
    ensures forall k :: 0 <= k < |r| ==> (!r[k].hidden <==> FirstMatch(els, StatusClass(status)) == Some(k))
  {
    seq(|els|, k requires 0 <= k < |els| =>
      els[k].(hidden := FirstMatch(els, StatusClass(status)) != Some(k)))
  }

  /** At most one element is shown, and it is one for `status`. */
  lemma ShowStatusShowsAtMostOne(els: seq<StatusElement>, status: RequestStatus)
    ensures var r := ShowStatus(els, status);
            && |r| == |els|
            && (forall k :: 0 <= k < |r| ==> r[k].status == els[k].status)
            && (forall j, k :: 0 <= j < |r| && 0 <= k < |r| && !r[j].hidden && !r[k].hidden ==> j == k)
            && (forall k :: 0 <= k < |r| && !r[k].hidden ==> r[k].status == StatusClass(status))
            && ((exists k :: 0 <= k < |els| && els[k].status == StatusClass(status)) <==>
                (exists k :: 0 <= k < |r| && !r[k].hidden))
  {
    var r := ShowStatus(els, status);
    var m := FirstMatch(els, StatusClass(status));
    if m.Some? {
      assert !r[m.value].hidden;
    }
  }

  /** FirstMatch looks only at the elements' statuses, not at what is shown. */
  lemma {:induction false} FirstMatchIgnoresHidden(a: seq<StatusElement>, b: seq<StatusElement>, status: string)
    requires |a| == |b| && forall k :: 0 <= k < |a| ==> a[k].status == b[k].status
    ensures FirstMatch(a, status) == FirstMatch(b, status)
  {
    if a != [] {
      FirstMatchIgnoresHidden(a[1..], b[1..], status);
    }
  }

  /** Setting one status after another leaves only the last one's effect. */
  lemma LastStatusWins(els: seq<StatusElement>, first: RequestStatus, second: RequestStatus)
    ensures ShowStatus(ShowStatus(els, first), second) == ShowStatus(els, second)
  {
    FirstMatchIgnoresHidden(ShowStatus(els, first), els, StatusClass(second));
  }

  /** The statuses handleContactedAction sets, in order. */
  function ContactedStatuses(response: PatchResponse): (trace: seq<RequestStatus>)
    ensures |trace| >= 2 && trace[0] == Pending
    ensures trace[|trace| - 1] == RequestStatus.Success <==> response.PatchResponse? && response.ok && response.body.Success?
    ensures trace[|trace| - 1] == Error <==> !(response.PatchResponse? && response.ok && response.body.Success?)
    ensures RequestStatus.Success in trace <==> response.PatchResponse? && response.ok
  {
    match response
    case PatchFailed => [Pending, Error]
    case PatchResponse(ok, body) =>
      if !ok then [Pending, Error]
      else if body.Failure? then [Pending, RequestStatus.Success, Error]
      else [Pending, RequestStatus.Success]
  }

  /** An attribute observed by ContactItem, with the value setAttribute is given. */
  datatype ItemAttribute =
    | DataId(id: int)
    | DataFullName(fullName: string)
    | DataFrequencyDays(frequencyDays: int)
    | DataDueAt(dueAt: int)

  class ContactItem {
    var id: Option<int>
    var fullName: Option<string>
    var frequencyDays: Option<int>
    var dueAt: Option<int>
    var fullNameText: string
    var frequencyText: string
    var dueAtText: string
    var statusElements: seq<StatusElement>

    /** The item shows contact `c`, with the texts computed at `clockMs`, and
        status elements as in `template`. */
    ghost predicate Shows(c: Contact, template: seq<StatusElement>, clockMs: int)
      reads this
    {
      && id == Some(c.id) && fullName == Some(c.full_name)
      && frequencyDays == Some(c.frequency_days) && dueAt == Some(c.due_at)
      && fullNameText == c.full_name
      && frequencyText == FrequencyText(c.frequency_days)
      && dueAtText == DueAtText(c.due_at, clockMs)
      && statusElements == template
    }

    /** A new item from the template: no attributes, empty texts. */
    constructor (template: seq<StatusElement>)
      ensures id == None && fullName == None && frequencyDays == None && dueAt == None
      ensures fullNameText == "" && frequencyText == "" && dueAtText == ""
      ensures statusElements == template
    {
      id, fullName, frequencyDays, dueAt := None, None, None, None;
      fullNameText, frequencyText, dueAtText := "", "", "";
      statusElements := template;
    }

    /** setContactedRequestStatus: add display-none to every status element,
        then remove it from the first one for `status`. */
    method SetContactedRequestStatus(status: RequestStatus)
      modifies this
      ensures statusElements == ShowStatus(old(statusElements), status)
      ensures id == old(id) && fullName == old(fullName) && frequencyDays == old(frequencyDays) && dueAt == old(dueAt)
      ensures fullNameText == old(fullNameText) && frequencyText == old(frequencyText) && dueAtText == old(dueAtText)
    {
      var els := statusElements;
      var i := 0;
      while i < |els|
        invariant 0 <= i <= |els| == |statusElements|
        invariant forall k :: 0 <= k < |els| ==> els[k].status == statusElements[k].status
        invariant forall k :: 0 <= k < i ==> els[k].hidden
      {
        els := els[i := els[i].(hidden := true)];
        i := i + 1;
      }
      FirstMatchIgnoresHidden(els, statusElements, StatusClass(status));
      var statusEl := FirstMatch(els, StatusClass(status));
      if statusEl.Some? {
        els := els[statusEl.value := els[statusEl.value].(hidden := false)];
      }
      statusElements := els;
    }

    /** attributeChangedCallback: data-full-name, data-frequency-days and
        data-due-at refresh their text; data-id changes no text. */
    method AttributeChangedCallback(attr: ItemAttribute, clockMs: int)
      modifies this
      ensures id == old(id) && fullName == old(fullName) && frequencyDays == old(frequencyDays) && dueAt == old(dueAt)
      ensures statusElements == old(statusElements)
      ensures fullNameText == if attr.DataFullName? then attr.fullName else old(fullNameText)
      ensures frequencyText == if attr.DataFrequencyDays? then FrequencyText(attr.frequencyDays) else old(frequencyText)
      ensures dueAtText == if attr.DataDueAt? then DueAtText(attr.dueAt, clockMs) else old(dueAtText)
    {
      match attr
      case DataId(_) =>
      case DataFullName(name) =>
        fullNameText := name;
      case DataFrequencyDays(days) =>
        frequencyText := FrequencyText(days);
      case DataDueAt(t) =>
        dueAtText := DueAtText(t, clockMs);
    }

    /** setAttribute(name, value) and the callback it fires. */
    method SetAttribute(attr: ItemAttribute, clockMs: int)
      modifies this
      ensures id == if attr.DataId? then Some(attr.id) else old(id)
      ensures fullName == if attr.DataFullName? then Some(attr.fullName) else old(fullName)
      ensures frequencyDays == if attr.DataFrequencyDays? then Some(attr.frequencyDays) else old(frequencyDays)
      ensures dueAt == if attr.DataDueAt? then Some(attr.dueAt) else old(dueAt)
      ensures statusElements == old(statusElements)
      ensures fullNameText == if attr.DataFullName? then attr.fullName else old(fullNameText)
      ensures frequencyText == if attr.DataFrequencyDays? then FrequencyText(attr.frequencyDays) else old(frequencyText)
      ensures dueAtText == if attr.DataDueAt? then DueAtText(attr.dueAt, clockMs) else old(dueAtText)
    {
      match attr {
        case DataId(v) => id := Some(v);
        case DataFullName(v) => fullName := Some(v);
        case DataFrequencyDays(v) => frequencyDays := Some(v);
        case DataDueAt(v) => dueAt := Some(v);
      }
      AttributeChangedCallback(attr, clockMs);
    }

    /** handleContactedAction: Pending first; then Success and the new due time
        when the response is ok (Error after Success if its body cannot be
        read), and Error on a non-ok response or a failed request. */
    method HandleContactedAction(response: PatchResponse, clockMs: int) returns (trace: seq<RequestStatus>)
      modifies this
      ensures trace == ContactedStatuses(response)
      ensures statusElements == ShowStatus(old(statusElements), trace[|trace| - 1])
      ensures response.PatchResponse? && response.ok && response.body.Success? ==>
        dueAt == Some(response.body.value.due_at) && dueAtText == DueAtText(response.body.value.due_at, clockMs)
      ensures !(response.PatchResponse? && response.ok && response.body.Success?) ==>
        dueAt == old(dueAt) && dueAtText == old(dueAtText)
      ensures id == old(id) && fullName == old(fullName) && frequencyDays == old(frequencyDays)
      ensures fullNameText == old(fullNameText) && frequencyText == old(frequencyText)
    {
      SetContactedRequestStatus(Pending);
      trace := [Pending];
      match response
      case PatchFailed =>
        SetContactedRequestStatus(Error);
        trace := trace + [Error];
        LastStatusWins(old(statusElements), Pending, Error);
      case PatchResponse(ok, body) =>
        if ok {
          SetContactedRequestStatus(RequestStatus.Success);
          trace := trace + [RequestStatus.Success];
          LastStatusWins(old(statusElements), Pending, RequestStatus.Success);
          match body
          case Failure(_) =>
            SetContactedRequestStatus(Error);
            trace := trace + [Error];
            LastStatusWins(old(statusElements), RequestStatus.Success, Error);
            LastStatusWins(old(statusElements), Pending, Error);
          case Success(updatedContact: Contact) =>
            SetAttribute(DataDueAt(updatedContact.due_at), clockMs);
        } else {
          SetContactedRequestStatus(Error);
          trace := trace + [Error];
          LastStatusWins(old(statusElements), Pending, Error);
        }
    }
  }

  class ContactList {
    /** The status elements of the `template-contact-item` template. */
    const itemTemplate: seq<StatusElement>
    /** The children of the list's <ul>. */
    var items: seq<ContactItem>

    constructor (itemTemplate: seq<StatusElement>)
      ensures this.itemTemplate == itemTemplate && items == []
    {
      this.itemTemplate := itemTemplate;
      items := [];
    }

    /** setContactList: empties the list, sorts the contacts by due time and
        appends one new item per contact in that order. */
    method SetContactList(contacts: seq<Contact>, clockMs: int)
      modifies this
      ensures |items| == |contacts|
      ensures forall k :: 0 <= k < |items| ==> fresh(items[k])
      ensures forall k :: 0 <= k < |items| ==> items[k] !in items[..k]
      ensures forall k :: 0 <= k < |items| ==> items[k].Shows(SortByDueAt(contacts)[k], itemTemplate, clockMs)
    {
      items := [];
      items := CreateContactItems(SortByDueAt(contacts), clockMs);
    }

    /** The forEach of setContactList: one new item per contact, in order. */
    method CreateContactItems(contacts: seq<Contact>, clockMs: int) returns (created: seq<ContactItem>)
      ensures |created| == |contacts|
      ensures forall k :: 0 <= k < |created| ==> fresh(created[k])
      ensures forall k :: 0 <= k < |created| ==> created[k] !in created[..k]
      ensures forall k :: 0 <= k < |created| ==> created[k].Shows(contacts[k], itemTemplate, clockMs)
    {
      created := [];
      for i := 0 to |contacts|
        invariant |created| == i
        invariant forall k :: 0 <= k < i ==> fresh(created[k])
        invariant forall k :: 0 <= k < i ==> created[k] !in created[..k]
        invariant forall k :: 0 <= k < i ==> created[k].Shows(contacts[k], itemTemplate, clockMs)
      {
        var contactItem := CreateContactItem(contacts[i], clockMs);
        created := created + [contactItem];
      }
    }

    /** The body of the forEach in setContactList: createElement('contact-item')
        and the four setAttribute calls, each firing its callback. */
    method CreateContactItem(contact: Contact, clockMs: int) returns (contactItem: ContactItem)
      ensures fresh(contactItem)
      ensures contactItem.Shows(contact, itemTemplate, clockMs)
    {
      contactItem := new ContactItem(itemTemplate);
      contactItem.SetAttribute(DataId(contact.id), clockMs);
      contactItem.SetAttribute(DataFullName(contact.full_name), clockMs);
      contactItem.SetAttribute(DataFrequencyDays(contact.frequency_days), clockMs);
      contactItem.SetAttribute(DataDueAt(contact.due_at), clockMs);
    }

    /** connectedCallback: an unauthenticated user is sent to `/`, and the list
        is fetched regardless; a 401 clears the token and sends the user to `/`
        without touching the list; any other response whose body is an array
        sets the list. isAuthenticated raising ends the callback before the
        fetch starts. `r` is what connectedCallback, or the async function it
        starts, raises: the request's or response.json()'s error, or the
        TypeError of `contacts.sort` on a body that is not an array, which is
        raised after the list was emptied. `clockMs` is the clock of the
        authentication check and `renderMs` the clock once the body is in. */
    method ConnectedCallback(auth: Auth.GithubAuth, history: Routing.History, response: ListResponse,
                             clockMs: int, renderMs: int)
      returns (r: Result<(), Exception>)
      requires history.Valid()
      modifies this, auth, history
      ensures history.Valid()
      ensures auth.requests == old(auth.requests)
      ensures old(auth.IsAuthenticated(Time.NowSeconds(clockMs))).Failure? ==>
        r == Failure(SyntaxError) && auth.slot == old(auth.slot) && history.View() == old(history.View())
        && items == old(items)
      ensures old(auth.IsAuthenticated(Time.NowSeconds(clockMs))).Success? ==>
        var afterCheck := if old(auth.IsAuthenticated(Time.NowSeconds(clockMs))).value then old(history.View())
                          else Routing.AfterPush(old(history.View()), Routing.Home, EmptyObject);
        && (response.ListFailed? ==>
              r == Failure(response.error) && auth.slot == old(auth.slot)
              && history.View() == afterCheck && items == old(items))
        && (response.ListResponse? && response.status == 401 ==>
              r.Success? && auth.slot == None && items == old(items)
              && history.View() == Routing.AfterPush(afterCheck, Routing.Home, EmptyObject))
        && (response.ListResponse? && response.status != 401 ==>
              auth.slot == old(auth.slot) && history.View() == afterCheck)
        && (response.ListResponse? && response.status != 401 && response.body.Failure? ==>
              r == Failure(response.body.error) && items == old(items))
        && (response.ListResponse? && response.status != 401 && response.body == Result.Success(NotAList) ==>
              r == Failure(TypeError) && items == [])
        && (response.ListResponse? && response.status != 401 && response.body.Success?
            && response.body.value.ContactArray? ==>
              var contacts := response.body.value.contacts;
              && r.Success?
              && |items| == |contacts|
              && (forall k :: 0 <= k < |items| ==> items[k] !in items[..k])
              && forall k :: 0 <= k < |items| ==>
                   fresh(items[k]) && items[k].Shows(SortByDueAt(contacts)[k], itemTemplate, renderMs))
    {
      var authenticated := auth.IsAuthenticated(Time.NowSeconds(clockMs));
      if authenticated.Failure? {
        return Failure(authenticated.error);
      }
      if !authenticated.value {
        Routing.Push(history, Routing.Home, EmptyObject);
      }
      match response
      case ListFailed(e) =>
        r := Failure(e);
      case ListResponse(status, body) =>
        if status == 401 {
          auth.RemoveGithubToken();
          Routing.Push(history, Routing.Home, EmptyObject);
          return Result.Success(());
        }
        match body
        case Failure(e) =>
          r := Failure(e);
        case Success(NotAList) =>
          // setContactList empties the <ul>, then contacts.sort raises.
          items := [];
          r := Failure(TypeError);
        case Success(ContactArray(contactList)) =>
          SetContactList(contactList, renderMs);
          r := Result.Success(());
    }
  }
}
