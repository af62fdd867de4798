/** The contact list of the profile block (`renderContacts`, src/components/PersonalInfo.ts). */
module PersonalInfo {
  import opened Types
  import opened Links

  /** The order the contact list tries the fields in. */
  const ContactOrder: seq<Channel> := [Email, Phone, Telegram, GitHub, LinkedIn]

  /** The link for one present field. Email, phone and Telegram show the raw value;
      GitHub and LinkedIn show a fixed label. */
  function Item(c: Contacts, ch: Channel): (r: ContactLink)
    requires Field(c, ch).Some?
    ensures r.channel == ch
  {
    var v := Field(c, ch).value;
    match ch
    case Email => ContactLink(Email, MailtoUrl(v), v)
    case Phone => ContactLink(Phone, TelUrl(v), v)
    case Telegram => ContactLink(Telegram, TelegramUrl(v), v)
    case GitHub => ContactLink(GitHub, WebUrl(v), "GitHub")
    case LinkedIn => ContactLink(LinkedIn, WebUrl(v), "LinkedIn")
  }

  /** What each link shows and where it points. */
  lemma ItemShape(c: Contacts, ch: Channel)
    requires Field(c, ch).Some?
    ensures Item(c, ch).channel == ch
    ensures ch == Email ==> Item(c, ch).href == "mailto:" + c.email.value && Item(c, ch).text == c.email.value
    ensures ch == Phone ==> Item(c, ch).href == "tel:" + c.phone.value && Item(c, ch).text == c.phone.value
    ensures ch == Telegram ==> Item(c, ch).href == "https://t.me/" + StripFirstAt(c.telegram.value)
                               && Item(c, ch).text == c.telegram.value
    ensures ch == GitHub ==> Item(c, ch).href == WebUrl(c.github.value) && Item(c, ch).text == "GitHub"
    ensures ch == LinkedIn ==> Item(c, ch).href == WebUrl(c.linkedin.value) && Item(c, ch).text == "LinkedIn"
  {
  }

  /** The link `ch` contributes: one when its field is truthy, none otherwise. */
  function Step(c: Contacts, ch: Channel): (r: seq<ContactLink>)
    ensures |r| <= 1
    ensures r != [] <==> Truthy(Field(c, ch))
  {
    if Truthy(Field(c, ch)) then [Item(c, ch)] else []
  }

  /** One link per truthy field of `chs`, in the order of `chs`. */
  function ItemsFor(c: Contacts, chs: seq<Channel>): (r: seq<ContactLink>)
    ensures |r| <= |chs|
  {
    if chs == [] then [] else Step(c, chs[0]) + ItemsFor(c, chs[1..])
  }

  /** The list is the truthy channels, in order, each shown by its own link. */
  lemma {:induction false} ItemsForChannels(c: Contacts, chs: seq<Channel>)
    ensures |ItemsFor(c, chs)| == |PresentChannels(c, chs)|
    ensures forall i :: 0 <= i < |ItemsFor(c, chs)| ==>
      Truthy(Field(c, PresentChannels(c, chs)[i])) && ItemsFor(c, chs)[i] == Item(c, PresentChannels(c, chs)[i])
  {
    if chs != [] {
      ItemsForChannels(c, chs[1..]);
    }
  }

  /** The contact list: the fields in the order email, phone, telegram, github,
      linkedin, each one exactly when it is truthy, at most five links. */
  lemma ContactListShape(c: Contacts)
    ensures IsSubsequence(PresentChannels(c, ContactOrder), ContactOrder)
    ensures forall ch :: ch in PresentChannels(c, ContactOrder) <==> Truthy(Field(c, ch))
    ensures |ItemsFor(c, ContactOrder)| == |PresentChannels(c, ContactOrder)|
    ensures |ItemsFor(c, ContactOrder)| == CountPresent(c, ContactOrder) <= 5
    ensures forall i :: 0 <= i < |ItemsFor(c, ContactOrder)| ==>
      ItemsFor(c, ContactOrder)[i] == Item(c, PresentChannels(c, ContactOrder)[i])
  {
    PresentChannelsInOrder(c, ContactOrder);
    PresentChannelsCount(c, ContactOrder);
    ItemsForChannels(c, ContactOrder);
    forall ch ensures ch in ContactOrder {
      match ch
      case Email => assert ContactOrder[0] == ch;
      case Phone => assert ContactOrder[1] == ch;
      case Telegram => assert ContactOrder[2] == ch;
      case GitHub => assert ContactOrder[3] == ch;
      case LinkedIn => assert ContactOrder[4] == ch;
    }
  }

  /** No truthy field, no links (and so the empty string). */
  lemma NoContactsNoLinks(c: Contacts)
    requires forall ch :: !Truthy(Field(c, ch))
    ensures ItemsFor(c, ContactOrder) == []
  {
    ContactListShape(c);
  }

  lemma ItemsForCons(c: Contacts, ch: Channel, rest: seq<Channel>)
    ensures ItemsFor(c, [ch] + rest) == Step(c, ch) + ItemsFor(c, rest)
  {
    assert ([ch] + rest)[0] == ch && ([ch] + rest)[1..] == rest;
  }

  lemma {:induction false} ItemsForAppend(c: Contacts, chs: seq<Channel>, ch: Channel)
    ensures ItemsFor(c, chs + [ch]) == ItemsFor(c, chs) + Step(c, ch)
  {
    if chs == [] {
      ItemsForCons(c, ch, []);
      assert [ch] + [] == [ch];
    } else {
      assert chs + [ch] == [chs[0]] + (chs[1..] + [ch]);
      ItemsForCons(c, chs[0], chs[1..] + [ch]);
      assert chs == [chs[0]] + chs[1..];
      ItemsForCons(c, chs[0], chs[1..]);
      ItemsForAppend(c, chs[1..], ch);
    }
  }

  /** `renderContacts`: a sequence of `if` + `push` steps. */
  method RenderContacts(c: Contacts) returns (items: seq<ContactLink>)
    ensures items == ItemsFor(c, ContactOrder)
  {
    items := [];
    assert Field(c, Email) == c.email && Field(c, Phone) == c.phone && Field(c, Telegram) == c.telegram
      && Field(c, GitHub) == c.github && Field(c, LinkedIn) == c.linkedin;
    ghost var done: seq<Channel> := [];
    assert Step(c, Email) == if Truthy(c.email) then [Item(c, Email)] else [];
    if Truthy(c.email) {
      items := items + [Item(c, Email)];
    }
    ItemsForAppend(c, done, Email);
    done := done + [Email];
    assert items == ItemsFor(c, done);
    assert Step(c, Phone) == if Truthy(c.phone) then [Item(c, Phone)] else [];
    if Truthy(c.phone) {
      items := items + [Item(c, Phone)];
    }
    ItemsForAppend(c, done, Phone);
    done := done + [Phone];
    assert items == ItemsFor(c, done);
    assert Step(c, Telegram) == if Truthy(c.telegram) then [Item(c, Telegram)] else [];
    if Truthy(c.telegram) {
      items := items + [Item(c, Telegram)];
    }
    ItemsForAppend(c, done, Telegram);
    done := done + [Telegram];
    assert items == ItemsFor(c, done);
    assert Step(c, GitHub) == if Truthy(c.github) then [Item(c, GitHub)] else [];
    if Truthy(c.github) {
      items := items + [Item(c, GitHub)];
    }
    ItemsForAppend(c, done, GitHub);
    done := done + [GitHub];
    assert items == ItemsFor(c, done);
    assert Step(c, LinkedIn) == if Truthy(c.linkedin) then [Item(c, LinkedIn)] else [];
    if Truthy(c.linkedin) {
      items := items + [Item(c, LinkedIn)];
    }
    ItemsForAppend(c, done, LinkedIn);
    done := done + [LinkedIn];
    assert items == ItemsFor(c, done);
    assert done == ContactOrder;
  }
}
