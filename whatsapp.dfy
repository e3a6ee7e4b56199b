/** The WhatsApp deep link both the checkout page and the custom-project dialog
    open: `https://wa.me/<phone>?text=<encodeURIComponent(message)>`, with the
    configured number or the built-in default. */
module WhatsApp {
  import opened Wrappers
  import opened Strings
  import opened UriEncoding

  /** The number used when none is configured (the server's default is the same number). */
  const DefaultPhone: string := "5511999999999"

  const Base: string := "https://wa.me/"

  /** `whatsappNumber || '5511999999999'`: the configured number unless it is missing or empty. */
  function Phone(configured: Option<string>): (phone: string)
    ensures phone != ""
    ensures configured.Some? && configured.value != "" ==> phone == configured.value
    ensures configured.None? || configured.value == "" ==> phone == DefaultPhone
  {
    OrElse(configured, DefaultPhone)
  }

  /** The link for a phone number and a message. The number is put in as it is,
      right after the base; the message is percent-encoded. */
  function Url(phone: string, message: string): (url: string)
    ensures |Base| + |phone| + |"?text="| <= |url|
    ensures url[..|Base|] == Base && url[|Base|..|Base| + |phone|] == phone
  {
    Base + phone + "?text=" + EncodeURIComponent(message)
  }

  /** The link without its fragment: everything before the first `#`. */
  function WithoutFragment(url: string): string
  {
    url[..IndexOfOrEnd(url, '#')]
  }

  /** What a recipient reads from a link: the fragment, from the first `#`, is
      set aside; the query starts after the first `?` before it; when the query
      is `text=` followed by a value, that value percent-decoded. */
  function TextParameter(url: string): Option<string>
  {
    var u := WithoutFragment(url);
    var q := IndexOfOrEnd(u, '?');
    if q + 6 <= |u| && u[q + 1..q + 6] == "text=" then DecodeURIComponent(u[q + 6..]) else None
  }

  /** The link carries the message intact, whatever characters it holds, as long
      as the phone number itself has no `?` and no `#`. */
  lemma UrlCarriesMessage(phone: string, message: string)
    requires '?' !in phone && '#' !in phone
    ensures TextParameter(Url(phone, message)) == Some(message)
  {
    var encoded := EncodeURIComponent(message);
    assert Url(phone, message) == (Base + phone) + ("?text=" + encoded);
    NotInHead(phone, '?');
    NotInHead(phone, '#');
    TextAfterHead(Base + phone, encoded);
    DecodeEncode(message);
  }

  /** The base has no `?` and no `#`, so the link's first `?` or `#` can only
      come from the phone number or after it. */
  lemma NotInHead(phone: string, c: char)
    requires c == '?' || c == '#'
    requires c !in phone
    ensures c !in Base + phone
  {
    var head := Base + phone;
    assert forall j :: 0 <= j < |Base| ==> Base[j] != c;
    assert forall j :: 0 <= j < |head| ==> head[j] == if j < |Base| then Base[j] else phone[j - |Base|];
  }

  /** A link with no `#` has no fragment. */
  lemma NoFragment(url: string)
    requires '#' !in url
    ensures WithoutFragment(url) == url
  {
    assert IndexOfOrEnd(url, '#') == |url|;
  }

  /** An encoded value has no `#`: it holds only unreserved characters and `%`. */
  lemma EncodedHasNoHash(encoded: string)
    requires forall j :: 0 <= j < |encoded| ==> IsUnreserved(encoded[j]) || encoded[j] == '%'
    ensures '#' !in encoded
  {
    assert !IsUnreserved('#');
  }

  /** A `#` in the phone number starts the fragment. When the part of the
      number before it has no `?`, what is left of the link has no query, so
      the message cannot be read back. */
  lemma FragmentHidesMessage(phone: string, message: string)
    requires '#' in phone && '?' !in phone[..IndexOfOrEnd(phone, '#')]
    ensures TextParameter(Url(phone, message)) == None
  {
    var h := IndexOfOrEnd(phone, '#');
    var j :| 0 <= j < |phone| && phone[j] == '#';
    assert h <= j;
    var pre := phone[..h];
    var encoded := EncodeURIComponent(message);
    var tail := phone[h..] + ("?text=" + encoded);
    var post := phone[h..];
    assert phone == pre + post;
    calc {
      Url(phone, message);
      Base + phone + "?text=" + encoded;
      Base + (pre + post) + "?text=" + encoded;
      { Associative4(Base, pre, post, "?text=", encoded); }
      (Base + pre) + tail;
    }
    NotInHead(pre, '#');
    NotInHead(pre, '?');
    FragmentAfterHead(Base + pre, tail);
  }

  lemma Associative4(a: string, b: string, c: string, d: string, e: string)
    ensures a + (b + c) + d + e == (a + b) + (c + (d + e))
  {
  }

  /** A tail that starts with `#` after a head without `?` or `#` leaves no query. */
  lemma FragmentAfterHead(head: string, tail: string)
    requires '?' !in head && '#' !in head
    requires tail != [] && tail[0] == '#'
    ensures TextParameter(head + tail) == None
  {
    IndexOfOrEndAfter(head, tail, '#');
    assert IndexOfOrEnd(tail, '#') == 0;
    assert WithoutFragment(head + tail) == head;
    assert IndexOfOrEnd(head, '?') == |head|;
  }

  /** After a head without `?` or `#`, the `text` parameter is the decoded value. */
  lemma TextAfterHead(head: string, encoded: string)
    requires '?' !in head && '#' !in head
    requires forall j :: 0 <= j < |encoded| ==> IsUnreserved(encoded[j]) || encoded[j] == '%'
    ensures TextParameter(head + ("?text=" + encoded)) == DecodeURIComponent(encoded)
  {
    var query := "?text=" + encoded;
    var url := head + query;
    EncodedHasNoHash(encoded);
    assert '#' !in query by { assert query == "?text=" + encoded; }
    assert '#' !in url by { assert forall j :: 0 <= j < |url| ==> url[j] == if j < |head| then head[j] else query[j - |head|]; }
    NoFragment(url);
    IndexOfOrEndAfter(head, query, '?');
    QueryFields(encoded);
    var p := |head|;
    SliceAfter(head, query, p + 1, p + 6);
    SliceAfter(head, query, p + 6, |url|);
    assert IndexOfOrEnd(url, '?') == p;
    assert url[p + 1..p + 6] == "text=";
    assert url[p + 6..] == encoded;
  }

  /** The query part of a link: `?` at its start, then `text=`, then the value. */
  lemma QueryFields(encoded: string)
    ensures var query := "?text=" + encoded;
            && |query| >= 6
            && IndexOfOrEnd(query, '?') == 0
            && query[1..6] == "text="
            && query[6..] == encoded
  {
    var query := "?text=" + encoded;
    assert query[0] == '?';
    assert query[..6] == "?text=";
  }

  /** A slice that lies inside the second part of a concatenation. */
  lemma SliceAfter(a: string, b: string, i: nat, j: nat)
    requires |a| <= i <= j <= |a| + |b|
    ensures (a + b)[i..j] == b[i - |a|..j - |a|]
  {
  }

  /** The link is the base and the phone number, then `?text=`, then only
      unreserved characters and `%`: nothing in the message can end the
      parameter or start another. */
  lemma UrlShape(phone: string, message: string)
    ensures var url := Url(phone, message);
            var p := |Base + phone|;
            && p + 6 <= |url|
            && url[..p] == Base + phone
            && url[p..p + 6] == "?text="
            && forall j :: p + 6 <= j < |url| ==> IsUnreserved(url[j]) || url[j] == '%'
  {
    var url := Url(phone, message);
    var head := Base + phone;
    var encoded := EncodeURIComponent(message);
    assert url == (head + "?text=") + encoded;
    assert forall j :: |head| + 6 <= j < |url| ==> url[j] == encoded[j - |head| - 6];
  }
}
