/** The href rules shared by the profile's contact list and the footer's social links
    (src/components/PersonalInfo.ts, src/components/Footer.ts). */
module Links {
  import opened Types

  /** The contact fields a link can be made from. */
  datatype Channel = Email | Phone | Telegram | GitHub | LinkedIn

  /** One rendered link: which field it shows, its href and its visible text. */
  datatype ContactLink = ContactLink(channel: Channel, href: string, text: string)

  function Field(c: Contacts, ch: Channel): Option<string> {
    match ch
    case Email => c.email
    case Phone => c.phone
    case Telegram => c.telegram
    case GitHub => c.github
    case LinkedIn => c.linkedin
  }

  /** The channels of `chs` whose field is truthy, in the order of `chs`. */
  function PresentChannels(c: Contacts, chs: seq<Channel>): (r: seq<Channel>)
    ensures |r| <= |chs|
    ensures forall ch :: ch in r <==> ch in chs && Truthy(Field(c, ch))
  {
    if chs == [] then []
    else (if Truthy(Field(c, chs[0])) then [chs[0]] else []) + PresentChannels(c, chs[1..])
  }

  lemma {:induction false} PresentChannelsInOrder(c: Contacts, chs: seq<Channel>)
    ensures IsSubsequence(PresentChannels(c, chs), chs)
  {
    if chs != [] {
      PresentChannelsInOrder(c, chs[1..]);
      var rest := PresentChannels(c, chs[1..]);
      if Truthy(Field(c, chs[0])) {
        assert ([chs[0]] + rest)[1..] == rest;
      } else {
        assert PresentChannels(c, chs) == rest;
        assert rest == [] || rest[0] != chs[0];
      }
    }
  }

  /** Number of truthy fields among `chs`. */
  function CountPresent(c: Contacts, chs: seq<Channel>): (n: nat)
    ensures n <= |chs|
  {
    if chs == [] then 0 else (if Truthy(Field(c, chs[0])) then 1 else 0) + CountPresent(c, chs[1..])
  }

  lemma {:induction false} PresentChannelsCount(c: Contacts, chs: seq<Channel>)
    ensures |PresentChannels(c, chs)| == CountPresent(c, chs)
  {
    if chs != [] {
      PresentChannelsCount(c, chs[1..]);
    }
  }

  /** `s.startsWith(p)`. */
  predicate HasPrefix(s: string, p: string) {
    |p| <= |s| && s[..|p|] == p
  }

  predicate HasSuffix(s: string, p: string) {
    |p| <= |s| && s[|s| - |p|..] == p
  }

  /** A GitHub or LinkedIn address: kept verbatim when it already starts with "http",
      otherwise "https://" is put in front of it. */
  function WebUrl(v: string): (r: string)
    ensures |r| == |v| || |r| == |v| + |"https://"|
    ensures r == v <==> HasPrefix(v, "http")
    ensures !HasPrefix(v, "http") ==> r == "https://" + v
  {
    if HasPrefix(v, "http") then v else "https://" + v
  }

  /** The address always starts with "http" and ends with the value; it is the value
      itself exactly when the value already starts with "http". */
  lemma WebUrlShape(v: string)
    ensures HasPrefix(WebUrl(v), "http") && HasSuffix(WebUrl(v), v)
    ensures WebUrl(v) == v <==> HasPrefix(v, "http")
    ensures !HasPrefix(v, "http") ==> HasPrefix(WebUrl(v), "https://") && WebUrl(v)[|"https://"|..] == v
  {
    if !HasPrefix(v, "http") {
      assert ("https://" + v)[..4] == "http";
      assert ("https://" + v)[..8] == "https://";
      assert ("https://" + v)[|"https://" + v| - |v|..] == v;
    }
  }

  /** Normalising an address twice is the same as normalising it once. */
  lemma WebUrlIdempotent(v: string)
    ensures WebUrl(WebUrl(v)) == WebUrl(v)
  {
    WebUrlShape(v);
  }

  /** `h.replace('@', '')`: a string pattern replaces only its first occurrence. */
  function StripFirstAt(h: string): (r: string)
    ensures '@' !in h ==> r == h
    ensures '@' in h ==> |r| == |h| - 1
  {
    if h == [] then []
    else if h[0] == '@' then h[1..]
    else [h[0]] + StripFirstAt(h[1..])
  }

  /** The character removed is the first '@': the part before it and the part after it stay. */
  lemma {:induction false} StripFirstAtRemovesFirst(h: string, i: nat)
    requires i < |h| && h[i] == '@' && '@' !in h[..i]
    ensures StripFirstAt(h) == h[..i] + h[i + 1..]
  {
    if i > 0 {
      assert h[0] == h[..i][0];
      ghost var mid := h[1..][..i - 1];
      assert '@' !in mid by {
        forall k | 0 <= k < |mid| ensures mid[k] != '@' {
          assert mid[k] == h[..i][k + 1];
        }
      }
      StripFirstAtRemovesFirst(h[1..], i - 1);
      assert h[..i] == [h[0]] + h[1..][..i - 1];
      assert h[1..][i..] == h[i + 1..];
    }
  }

  /** Only one '@' is removed: every other character of the handle survives. */
  lemma {:induction false} StripFirstAtMultiset(h: string)
    ensures '@' in h ==> multiset(StripFirstAt(h)) + multiset{'@'} == multiset(h)
  {
    if h != [] && h[0] != '@' {
      StripFirstAtMultiset(h[1..]);
      assert h == [h[0]] + h[1..];
      assert '@' in h ==> '@' in h[1..];
    } else if h != [] {
      assert h == [h[0]] + h[1..];
    }
  }

  /** The Telegram link for a handle written with or without its leading '@'. */
  function TelegramUrl(handle: string): (r: string)
    ensures HasPrefix(r, "https://t.me/")
    ensures r[|"https://t.me/"|..] == StripFirstAt(handle)
  {
    "https://t.me/" + StripFirstAt(handle)
  }

  /** "@name" and "name" lead to the same Telegram page. */
  lemma TelegramUrlIgnoresLeadingAt(name: string)
    requires '@' !in name
    ensures TelegramUrl("@" + name) == TelegramUrl(name)
  {
    assert ("@" + name)[0] == '@';
    assert ("@" + name)[1..] == name;
  }

  function MailtoUrl(email: string): (r: string)
    ensures HasPrefix(r, "mailto:") && r[|"mailto:"|..] == email
  {
    "mailto:" + email
  }

  function TelUrl(phone: string): (r: string)
    ensures HasPrefix(r, "tel:") && r[|"tel:"|..] == phone
  {
    "tel:" + phone
  }
}
