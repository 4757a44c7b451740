/** The chat view: a fixed contact list with a search over names and phone
    numbers, and an in-memory message list to which the user appends. */
module MessengerChat {
  import opened Wrappers
  import opened Strings
  import opened Seqs

  datatype Contact = Contact(
    id: string,
    name: string,
    phone: string,
    avatar: Option<string>,
    lastMessage: Option<string>,
    lastMessageTime: Option<string>,
    unreadCount: Option<int>,
    online: Option<bool>)

  datatype Message = Message(id: string, senderId: string, text: string, time: string, isOwn: bool)

  /** The sender id of the user's own messages. */
  const Me: string := "me"

  const MockContacts: seq<Contact> := [
    Contact("1", "Иван Петров", "+7 905 123-45-67", None,
            Some("Отправил файл презентации"), Some("10:30"), Some(2), Some(true)),
    Contact("2", "Мария Сидорова", "+7 916 234-56-78", None,
            Some("Спасибо за документы!"), Some("Вчера"), None, Some(false)),
    Contact("3", "Алексей Смирнов", "+7 926 345-67-89", None,
            Some("Когда будет готов отчет?"), Some("15 дек"), Some(1), Some(true))
  ]

  const MockMessages: seq<Message> := [
    Message("1", "1", "Привет! Можешь поделиться файлом?", "10:25", false),
    Message("2", Me, "Конечно, сейчас отправлю", "10:26", true),
    Message("3", "1", "Отправил файл презентации", "10:30", false)
  ]

  // ---------------------------------------------------------------------
  // Contact search
  // ---------------------------------------------------------------------

  /** The lower-cased name includes the lower-cased query, or the phone
      includes the query as typed. */
  predicate ContactMatches(c: Contact, query: string) {
    Contains(Lower(c.name), Lower(query)) || Contains(c.phone, query)
  }

  /** The contacts the search keeps: exactly the matching ones, each as
      often as it is listed, in list order. */
  function FilterContacts(contacts: seq<Contact>, query: string): (r: seq<Contact>)
    ensures forall c :: c in r <==> c in contacts && ContactMatches(c, query)
    ensures forall c :: c in contacts && ContactMatches(c, query) ==> multiset(r)[c] == multiset(contacts)[c]
    ensures IsSubsequence(r, contacts)
  {
    var keep := (c: Contact) => ContactMatches(c, query);
    FilterComplete(contacts, keep);
    FilterIsSubsequence(contacts, keep);
    Filter(contacts, keep)
  }

  /** An empty search keeps every contact, in order. */
  lemma EmptySearchKeepsAllContacts(contacts: seq<Contact>)
    ensures FilterContacts(contacts, "") == contacts
  {
    forall c | c in contacts
      ensures ContactMatches(c, "")
    {
      ContainsEmpty(c.phone);
    }
    FilterKeepsAll(contacts, (c: Contact) => ContactMatches(c, ""));
  }

  /** A query that is in no lower-cased name and no phone finds nothing. */
  lemma UnmatchedSearchFindsNothing(contacts: seq<Contact>, query: string)
    requires forall c :: c in contacts ==> !ContactMatches(c, query)
    ensures FilterContacts(contacts, query) == []
  {
    FilterNone(contacts, (c: Contact) => ContactMatches(c, query));
  }

  /** A worked example: searching for "Иван" finds only Иван Петров. */
  lemma SearchIvan()
    ensures FilterContacts(MockContacts, "Иван") == [MockContacts[0]]
  {
    var keep := (c: Contact) => ContactMatches(c, "Иван");
    var cs := MockContacts;
    assert |cs| == 3;
    assert keep(cs[0]) by { IvanMatchesIvan(); }
    assert !keep(cs[1]) by { IvanDoesNotMatchMaria(); }
    assert !keep(cs[2]) by { IvanDoesNotMatchAlexey(); }
    assert Filter(cs[3..], keep) == [];
    assert Filter(cs[2..], keep) == Filter(cs[3..], keep);
    assert Filter(cs[1..], keep) == Filter(cs[2..], keep);
    assert Filter(cs, keep) == [cs[0]] + Filter(cs[1..], keep);
  }

  lemma IvanMatchesIvan()
    ensures ContactMatches(MockContacts[0], "Иван")
  {
    assert MockContacts[0].name == "Иван Петров";
    assert Lower("Иван") == "иван";
    assert Lower("Иван Петров")[..4] == "иван";
  }

  lemma IvanDoesNotMatchMaria()
    ensures !ContactMatches(MockContacts[1], "Иван")
  {
    assert MockContacts[1].name == "Мария Сидорова";
    assert Lower("Мария Сидорова") == "мария сидорова";
    NotIvan(MockContacts[1], "мария сидорова");
  }

  lemma IvanDoesNotMatchAlexey()
    ensures !ContactMatches(MockContacts[2], "Иван")
  {
    assert MockContacts[2].name == "Алексей Смирнов";
    assert Lower("Алексей Смирнов") == "алексей смирнов";
    NotIvan(MockContacts[2], "алексей смирнов");
  }

  /** A contact whose lowered name has no "ив" and whose phone is ASCII
      is not found by "Иван". */
  lemma NotIvan(c: Contact, lowered: string)
    requires Lower(c.name) == lowered
    requires forall k :: 0 <= k < |lowered| - 1 && lowered[k] == 'и' ==> lowered[k + 1] != 'в'
    requires forall i :: 0 <= i < |c.phone| ==> c.phone[i] as int < 128
    ensures !ContactMatches(c, "Иван")
  {
    assert Lower("Иван") == "иван";
    NoIvanIn(lowered);
    NoCyrillicInPhone(c.phone, "Иван");
  }

  /** A phone number made of ASCII characters does not include a query
      that starts with a non-ASCII letter. */
  lemma NoCyrillicInPhone(phone: string, q: string)
    requires |q| > 0 && q[0] as int >= 128
    requires forall i :: 0 <= i < |phone| ==> phone[i] as int < 128
    ensures !Contains(phone, q)
  {
    forall k
      ensures !OccursAt(phone, q, k)
    {
      if 0 <= k && k + |q| <= |phone| {
        assert phone[k..k + |q|][0] == phone[k];
      }
    }
    ContainsIff(phone, q);
  }

  /** A name in which no 'и' is followed by 'в' does not include "иван". */
  lemma NoIvanIn(name: string)
    requires forall k :: 0 <= k < |name| - 1 && name[k] == 'и' ==> name[k + 1] != 'в'
    ensures !Contains(name, "иван")
  {
    forall k
      ensures !OccursAt(name, "иван", k)
    {
      if 0 <= k && k + 4 <= |name| {
        assert name[k..k + 4][0] == name[k] && name[k..k + 4][1] == name[k + 1];
      }
    }
    ContainsIff(name, "иван");
  }

  // ---------------------------------------------------------------------
  // Sending
  // ---------------------------------------------------------------------

  /** `!messageText.trim() || !selectedContact` is false. */
  predicate CanSend(text: string, selected: Option<Contact>) {
    Trim(text) != [] && selected.Some?
  }

  /** A send goes through exactly when a contact is selected and the text
      holds a character other than whitespace. */
  lemma CanSendIff(text: string, selected: Option<Contact>)
    ensures CanSend(text, selected) <==>
      selected.Some? && exists i :: 0 <= i < |text| && !IsWhitespace(text[i])
  {
    TrimEmptyIffBlank(text);
  }

  /** `e.key === 'Enter' && !e.shiftKey`. */
  predicate IsSendKey(key: string, shiftKey: bool) {
    key == "Enter" && !shiftKey
  }

  /** The chat view's state. The contact list never changes. */
  class Chat {
    const contacts: seq<Contact>
    var selectedContact: Option<Contact>
    var messages: seq<Message>
    var messageText: string
    var searchQuery: string
    var showAddContact: bool

    /** The view as it opens: the sample contacts and messages, the first
        contact selected, empty inputs and the add-contact panel closed. */
    constructor ()
      ensures contacts == MockContacts && selectedContact == Some(MockContacts[0])
      ensures messages == MockMessages && messageText == "" && searchQuery == ""
      ensures !showAddContact
    {
      contacts := MockContacts;
      selectedContact := Some(MockContacts[0]);
      messages := MockMessages;
      messageText := "";
      searchQuery := "";
      showAddContact := false;
    }

    /** The contacts shown for the current search. */
    function FilteredContacts(): (r: seq<Contact>)
      reads this
      ensures forall c :: c in r <==> c in contacts && ContactMatches(c, searchQuery)
      ensures forall c :: c in contacts && ContactMatches(c, searchQuery) ==> multiset(r)[c] == multiset(contacts)[c]
      ensures IsSubsequence(r, contacts)
    {
      FilterContacts(contacts, searchQuery)
    }

    /** Typing in the message box. */
    method SetMessageText(text: string)
      modifies this
      ensures messageText == text
      ensures messages == old(messages) && selectedContact == old(selectedContact)
      ensures searchQuery == old(searchQuery) && showAddContact == old(showAddContact)
    {
      messageText := text;
    }

    /** Clicking a contact in the list. */
    method SelectContact(c: Contact)
      modifies this
      ensures selectedContact == Some(c)
      ensures messages == old(messages) && messageText == old(messageText)
      ensures searchQuery == old(searchQuery) && showAddContact == old(showAddContact)
    {
      selectedContact := Some(c);
    }

    /** Typing in the contact search box. */
    method SetSearchQuery(query: string)
      modifies this
      ensures searchQuery == query
      ensures messages == old(messages) && messageText == old(messageText)
      ensures selectedContact == old(selectedContact) && showAddContact == old(showAddContact)
    {
      searchQuery := query;
    }

    /** `handleSendMessage`: when the trimmed text is empty or no contact
        is selected nothing changes; otherwise one own message carrying
        the untrimmed text is appended after all earlier ones and the input
        is cleared. The id and time label are the clock's readings. */
    method SendMessage(id: string, time: string) returns (sent: bool)
      modifies this
      ensures sent == CanSend(old(messageText), old(selectedContact))
      ensures !sent ==> messages == old(messages) && messageText == old(messageText)
      ensures sent ==> messages == old(messages) + [Message(id, Me, old(messageText), time, true)]
      ensures sent ==> messageText == ""
      ensures selectedContact == old(selectedContact)
      ensures searchQuery == old(searchQuery) && showAddContact == old(showAddContact)
    {
      if !CanSend(messageText, selectedContact) {
        return false;
      }
      var newMessage := Message(id, Me, messageText, time, true);
      messages := messages + [newMessage];
      messageText := "";
      return true;
    }

    /** `handleKeyPress`: Enter without Shift sends; any other key, or
        Enter with Shift, changes nothing. */
    method KeyPress(key: string, shiftKey: bool, id: string, time: string) returns (sent: bool)
      modifies this
      ensures sent == (IsSendKey(key, shiftKey) && CanSend(old(messageText), old(selectedContact)))
      ensures !sent ==> messages == old(messages) && messageText == old(messageText)
      ensures sent ==> messages == old(messages) + [Message(id, Me, old(messageText), time, true)]
      ensures sent ==> messageText == ""
      ensures selectedContact == old(selectedContact)
      ensures searchQuery == old(searchQuery) && showAddContact == old(showAddContact)
    {
      sent := false;
      if IsSendKey(key, shiftKey) {
        sent := SendMessage(id, time);
      }
    }

    /** The add-contact button: opens or closes the panel. */
    method ToggleAddContact()
      modifies this
      ensures showAddContact == !old(showAddContact)
      ensures messages == old(messages) && messageText == old(messageText)
      ensures selectedContact == old(selectedContact) && searchQuery == old(searchQuery)
    {
      showAddContact := !showAddContact;
    }
  }

  /** Pressing the add-contact button twice restores the panel. */
  method ToggleTwiceRestores(chat: Chat)
    modifies chat
    ensures chat.showAddContact == old(chat.showAddContact)
    ensures chat.messages == old(chat.messages) && chat.messageText == old(chat.messageText)
  {
    chat.ToggleAddContact();
    chat.ToggleAddContact();
  }

  /** Typing only whitespace and sending it never adds a message, from any
      state; the typed text stays in the input. */
  method BlankIsNotSent(chat: Chat, text: string, id: string, time: string)
    requires forall i :: 0 <= i < |text| ==> IsWhitespace(text[i])
    modifies chat
    ensures chat.messages == old(chat.messages) && chat.messageText == text
  {
    chat.SetMessageText(text);
    CanSendIff(text, chat.selectedContact);
    var sent := chat.SendMessage(id, time);
  }
}
