/** The footer's social links (`renderSocialLinks`, src/components/Footer.ts). */
module Footer {
  import opened Types
  import opened Links

  /** The order the footer tries the fields in; the phone number is not among them. */
  const SocialOrder: seq<Channel> := [GitHub, LinkedIn, Telegram, Email]

  /** The footer link for one present field; every label is a fixed word. */
  function Item(c: Contacts, ch: Channel): (r: ContactLink)
    requires Field(c, ch).Some? && ch != Phone
    ensures r.channel == ch
  {
    var v := Field(c, ch).value;
    match ch
    case GitHub => ContactLink(GitHub, WebUrl(v), "GitHub")
    case LinkedIn => ContactLink(LinkedIn, WebUrl(v), "LinkedIn")
    case Telegram => ContactLink(Telegram, TelegramUrl(v), "Telegram")
    case Email => ContactLink(Email, MailtoUrl(v), "Email")
  }

  /** What each link shows and where it points. */
  lemma ItemShape(c: Contacts, ch: Channel)
    requires Field(c, ch).Some? && ch != Phone
    ensures Item(c, ch).channel == ch
    ensures ch == GitHub ==> Item(c, ch).href == WebUrl(c.github.value) && Item(c, ch).text == "GitHub"
    ensures ch == LinkedIn ==> Item(c, ch).href == WebUrl(c.linkedin.value) && Item(c, ch).text == "LinkedIn"
    ensures ch == Telegram ==> Item(c, ch).href == "https://t.me/" + StripFirstAt(c.telegram.value)
                               && Item(c, ch).text == "Telegram"
    ensures ch == Email ==> Item(c, ch).href == "mailto:" + c.email.value && Item(c, ch).text == "Email"
  {
  }

  /** The link `ch` contributes: one when its field is truthy, none otherwise. */
  function Step(c: Contacts, ch: Channel): (r: seq<ContactLink>)
    requires ch != Phone
    ensures |r| <= 1
    ensures r != [] <==> Truthy(Field(c, ch))
  {
    if Truthy(Field(c, ch)) then [Item(c, ch)] else []
  }

  /** One link per truthy field of `chs`, in the order of `chs`. */
  function ItemsFor(c: Contacts, chs: seq<Channel>): (r: seq<ContactLink>)
    requires Phone !in chs
    ensures |r| <= |chs|
  {
    if chs == [] then [] else Step(c, chs[0]) + ItemsFor(c, chs[1..])
  }

  lemma {:induction false} ItemsForChannels(c: Contacts, chs: seq<Channel>)
    requires Phone !in chs
    ensures |ItemsFor(c, chs)| == |PresentChannels(c, chs)|
    ensures forall i :: 0 <= i < |ItemsFor(c, chs)| ==>
      Truthy(Field(c, PresentChannels(c, chs)[i])) && PresentChannels(c, chs)[i] != Phone
      && ItemsFor(c, chs)[i] == Item(c, PresentChannels(c, chs)[i])
  {
    if chs != [] {
      assert Phone !in chs[1..] by { assert forall i :: 0 <= i < |chs| - 1 ==> chs[1..][i] == chs[i + 1]; }
      ItemsForChannels(c, chs[1..]);
    }
  }

  /** The footer: github, linkedin, telegram, email, each exactly when truthy; never
      the phone; at most four links. */
  lemma SocialListShape(c: Contacts)
    ensures IsSubsequence(PresentChannels(c, SocialOrder), SocialOrder)
    ensures forall ch :: ch in PresentChannels(c, SocialOrder) <==> ch != Phone && Truthy(Field(c, ch))
    ensures |ItemsFor(c, SocialOrder)| == |PresentChannels(c, SocialOrder)|
    ensures |ItemsFor(c, SocialOrder)| == CountPresent(c, SocialOrder) <= 4
    ensures forall i :: 0 <= i < |ItemsFor(c, SocialOrder)| ==>
      ItemsFor(c, SocialOrder)[i].channel != Phone
      && ItemsFor(c, SocialOrder)[i] == Item(c, PresentChannels(c, SocialOrder)[i])
  {
    PresentChannelsInOrder(c, SocialOrder);
    PresentChannelsCount(c, SocialOrder);
    ItemsForChannels(c, SocialOrder);
    forall ch | ch != Phone ensures ch in SocialOrder {
      match ch
      case GitHub => assert SocialOrder[0] == ch;
      case LinkedIn => assert SocialOrder[1] == ch;
      case Telegram => assert SocialOrder[2] == ch;
      case Email => assert SocialOrder[3] == ch;
    }
    forall i | 0 <= i < |ItemsFor(c, SocialOrder)| ensures ItemsFor(c, SocialOrder)[i].channel != Phone {
      ItemShape(c, PresentChannels(c, SocialOrder)[i]);
    }
  }

  /** Without a truthy GitHub, LinkedIn, Telegram or email field the footer is empty,
      whatever the phone field holds. */
  lemma NoSocialLinks(c: Contacts)
    requires !Truthy(c.github) && !Truthy(c.linkedin) && !Truthy(c.telegram) && !Truthy(c.email)
    ensures ItemsFor(c, SocialOrder) == []
  {
    SocialListShape(c);
    forall ch ensures ch !in PresentChannels(c, SocialOrder) {
    }
  }

  lemma ItemsForCons(c: Contacts, ch: Channel, rest: seq<Channel>)
    requires Phone !in rest && ch != Phone
    ensures ItemsFor(c, [ch] + rest) == Step(c, ch) + ItemsFor(c, rest)
  {
    assert ([ch] + rest)[0] == ch && ([ch] + rest)[1..] == rest;
  }

  lemma {:induction false} ItemsForAppend(c: Contacts, chs: seq<Channel>, ch: Channel)
    requires Phone !in chs && ch != Phone
    ensures ItemsFor(c, chs + [ch]) == ItemsFor(c, chs) + Step(c, ch)
  {
    if chs == [] {
      ItemsForCons(c, ch, []);
      assert [ch] + [] == [ch];
    } else {
      assert chs + [ch] == [chs[0]] + (chs[1..] + [ch]);
      ItemsForCons(c, chs[0], chs[1..] + [ch]);
      assert chs == [chs[0]] + chs[1..];
      ItemsForCons(c, chs[0], chs[1..]);
      ItemsForAppend(c, chs[1..], ch);
    }
  }

  /** `renderSocialLinks`: a sequence of `if` + `push` steps. */
  method RenderSocialLinks(c: Contacts) returns (links: seq<ContactLink>)
    ensures links == ItemsFor(c, SocialOrder)
  {
    links := [];
    assert Field(c, Email) == c.email && Field(c, Phone) == c.phone && Field(c, Telegram) == c.telegram
      && Field(c, GitHub) == c.github && Field(c, LinkedIn) == c.linkedin;
    ghost var done: seq<Channel> := [];
    assert Step(c, GitHub) == if Truthy(c.github) then [Item(c, GitHub)] else [];
    if Truthy(c.github) {
      links := links + [Item(c, GitHub)];
    }
    ItemsForAppend(c, done, GitHub);
    done := done + [GitHub];
    assert links == ItemsFor(c, done);
    assert Step(c, LinkedIn) == if Truthy(c.linkedin) then [Item(c, LinkedIn)] else [];
    if Truthy(c.linkedin) {
      links := links + [Item(c, LinkedIn)];
    }
    ItemsForAppend(c, done, LinkedIn);
    done := done + [LinkedIn];
    assert links == ItemsFor(c, done);
    assert Step(c, Telegram) == if Truthy(c.telegram) then [Item(c, Telegram)] else [];
    if Truthy(c.telegram) {
      links := links + [Item(c, Telegram)];
    }
    ItemsForAppend(c, done, Telegram);
    done := done + [Telegram];
    assert links == ItemsFor(c, done);
    assert Step(c, Email) == if Truthy(c.email) then [Item(c, Email)] else [];
    if Truthy(c.email) {
      links := links + [Item(c, Email)];
    }
    ItemsForAppend(c, done, Email);
    done := done + [Email];
    assert links == ItemsFor(c, done);
    assert done == SocialOrder;
  }
}
