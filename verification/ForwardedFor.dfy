/**
 Which client address a request is counted under (backend/app/rate_limit.py): the platform's own header,
 the right-to-left walk over X-Forwarded-For behind a trusted peer, or the peer itself.

 Whether an address is one of our proxies is an arbitrary predicate `trusted` on non-empty text.
 */
module ForwardedFor {
  import opened Options

  // The white space str.strip removes from the characters a header can carry.
  predicate IsSpace(c: char) {
    c == ' ' || '\t' <= c <= '\r' || (28 <= c as int <= 31) || c as int in {133, 160}
  }

  // Tab to carriage return, the four separators, space, next line and no-break space.
  lemma SpacesAreTheseTwelve(c: char)
    ensures IsSpace(c) <==> c as int in {9, 10, 11, 12, 13, 28, 29, 30, 31, 32, 133, 160}
  {
  }

  function StripLeft(s: string): string {
    if s != "" && IsSpace(s[0]) then StripLeft(s[1..]) else s
  }

  function StripRight(s: string): string {
    if s != "" && IsSpace(s[|s| - 1]) then StripRight(s[..|s| - 1]) else s
  }

  function Strip(s: string): string {
    StripRight(StripLeft(s))
  }

  // The pieces between commas; there is always at least one.
  function Split(s: string): (parts: seq<string>)
    ensures parts != []
  {
    if s == "" then [""]
    else
      var rest := Split(s[1..]);
      if s[0] == ',' then [""] + rest else [[s[0]] + rest[0]] + rest[1..]
  }

  function Trimmed(parts: seq<string>): seq<string> {
    if parts == [] then []
    else (if Strip(parts[0]) == "" then [] else [Strip(parts[0])]) + Trimmed(parts[1..])
  }

  // The trimmed, non-empty entries of a header.
  function ParseXff(header: Option<string>): seq<string> {
    if header.None? || header.value == "" then [] else Trimmed(Split(header.value))
  }

  predicate IsTrustedProxy(trusted: string -> bool, host: Option<string>) {
    host.Some? && host.value != "" && trusted(host.value)
  }

  // The walk from the right: the first entry that is not one of ours.
  function FirstUntrustedFromRight(trusted: string -> bool, entries: seq<string>): Option<string> {
    if entries == [] then None
    else
      var last := entries[|entries| - 1];
      if !IsTrustedProxy(trusted, Some(last)) then Some(last)
      else FirstUntrustedFromRight(trusted, entries[..|entries| - 1])
  }

  datatype Request = Request(peer: Option<string>, xff: Option<string>, doConnectingIp: Option<string>)

  predicate Present(header: Option<string>) {
    header.Some? && header.value != ""
  }

  function ClientIp(trusted: string -> bool, appPlatform: bool, r: Request): string {
    if appPlatform && Present(r.doConnectingIp) then r.doConnectingIp.value
    else
      var walked := if IsTrustedProxy(trusted, r.peer) then FirstUntrustedFromRight(trusted, ParseXff(r.xff)) else None;
      if walked.Some? then walked.value
      else if IsTrustedProxy(trusted, r.peer) && Present(r.doConnectingIp) then r.doConnectingIp.value
      else if Present(r.peer) then r.peer.value else "127.0.0.1"
  }

  // ---------- splitting, trimming and walking distribute over a comma ----------

  lemma {:induction false} SplitJoined(p: string, h: string)
    ensures Split(p + "," + h) == Split(p) + Split(h)
  {
    var s := p + "," + h;
    if p == "" {
      assert s[1..] == h;
    } else {
      assert s[1..] == p[1..] + "," + h;
      SplitJoined(p[1..], h);
      SplitFirst(s);
      SplitFirst(p);
      PrependJoined(Split(p[1..]), Split(h), p[0]);
    }
  }

  // One more character in front either opens a new piece or joins the first.
  function Prepend(c: char, parts: seq<string>): seq<string>
    requires parts != []
  {
    if c == ',' then [""] + parts else [[c] + parts[0]] + parts[1..]
  }

  lemma SplitFirst(s: string)
    requires s != ""
    ensures Split(s) == Prepend(s[0], Split(s[1..]))
  {
  }

  lemma PrependJoined(a: seq<string>, b: seq<string>, c: char)
    requires a != []
    ensures Prepend(c, a + b) == Prepend(c, a) + b
  {
    assert (a + b)[1..] == a[1..] + b;
  }

  lemma {:induction false} TrimmedJoined(a: seq<string>, b: seq<string>)
    ensures Trimmed(a + b) == Trimmed(a) + Trimmed(b)
  {
    if a == [] {
      assert a + b == b;
    } else {
      assert (a + b)[1..] == a[1..] + b;
      TrimmedJoined(a[1..], b);
    }
  }

  lemma EntriesJoined(p: string, h: string)
    ensures ParseXff(Some(p + "," + h)) == ParseXff(Some(p)) + ParseXff(Some(h))
  {
    SplitJoined(p, h);
    TrimmedJoined(Split(p), Split(h));
    assert Strip("") == "" && Trimmed([""]) == [] + Trimmed([""][1..]) == [];
  }

  lemma {:induction false} WalkJoined(trusted: string -> bool, a: seq<string>, b: seq<string>)
    ensures FirstUntrustedFromRight(trusted, a + b)
            == if FirstUntrustedFromRight(trusted, b).Some? then FirstUntrustedFromRight(trusted, b)
               else FirstUntrustedFromRight(trusted, a)
    decreases |b|
  {
    if b == [] {
      assert a + b == a;
    } else {
      assert (a + b)[..|a + b| - 1] == a + b[..|b| - 1];
      WalkJoined(trusted, a, b[..|b| - 1]);
    }
  }

  // Entry i is untrusted and all entries to its right are ours.
  predicate LastUntrusted(trusted: string -> bool, entries: seq<string>, i: nat)
    requires i < |entries|
  {
    !IsTrustedProxy(trusted, Some(entries[i]))
    && forall k :: i < k < |entries| ==> IsTrustedProxy(trusted, Some(entries[k]))
  }

  // What the walk finds: an untrusted entry with only trusted ones to its right, if there is one at all.
  lemma {:induction false} WalkFindsTheLastUntrusted(trusted: string -> bool, entries: seq<string>)
    ensures FirstUntrustedFromRight(trusted, entries).None? <==>
              forall e :: e in entries ==> IsTrustedProxy(trusted, Some(e))
    ensures FirstUntrustedFromRight(trusted, entries).Some? ==>
              exists i :: 0 <= i < |entries| && LastUntrusted(trusted, entries, i)
                          && entries[i] == FirstUntrustedFromRight(trusted, entries).value
  {
    if entries != [] {
      var n := |entries| - 1;
      assert forall e :: e in entries <==> e == entries[n] || e in entries[..n];
      if IsTrustedProxy(trusted, Some(entries[n])) {
        WalkFindsTheLastUntrusted(trusted, entries[..n]);
        if FirstUntrustedFromRight(trusted, entries[..n]).Some? {
          var i :| 0 <= i < n && LastUntrusted(trusted, entries[..n], i)
                   && entries[..n][i] == FirstUntrustedFromRight(trusted, entries[..n]).value;
          assert forall k :: i < k < n ==> entries[k] == entries[..n][k];
          assert LastUntrusted(trusted, entries, i);
        }
      } else {
        assert LastUntrusted(trusted, entries, n);
      }
    }
  }

  lemma {:induction false} EntriesAreTrimmed(parts: seq<string>, i: nat)
    requires i < |Trimmed(parts)|
    ensures var e := Trimmed(parts)[i]; e != "" && !IsSpace(e[0]) && !IsSpace(e[|e| - 1]) && Strip(e) == e
  {
    var first := if Strip(parts[0]) == "" then [] else [Strip(parts[0])];
    if i < |first| {
      StripTrims(parts[0]);
    } else {
      EntriesAreTrimmed(parts[1..], i - |first|);
    }
  }

  lemma StripTrims(s: string)
    ensures var e := Strip(s); e == "" || (!IsSpace(e[0]) && !IsSpace(e[|e| - 1]) && Strip(e) == e)
  {
    LeftTrims(s);
    RightTrims(StripLeft(s));
  }

  lemma {:induction false} LeftTrims(s: string)
    ensures StripLeft(s) == "" || !IsSpace(StripLeft(s)[0])
  {
    if s != "" && IsSpace(s[0]) {
      LeftTrims(s[1..]);
    }
  }

  lemma {:induction false} RightTrims(s: string)
    ensures StripRight(s) == "" || !IsSpace(StripRight(s)[|StripRight(s)| - 1])
    ensures StripRight(s) <= s
  {
    if s != "" && IsSpace(s[|s| - 1]) {
      RightTrims(s[..|s| - 1]);
    }
  }

  // The platform's header decides alone when the platform mode is on and the header is there.
  predicate PlatformDecides(appPlatform: bool, r: Request) {
    appPlatform && Present(r.doConnectingIp)
  }

  // Behind a trusted peer, unless the platform's header decides, text put in front of a header never changes
  // the address resolved from it, provided the header holds an untrusted entry; without one the address is
  // that of the text in front alone.
  lemma PrefixDecidesOnlyWithoutAnUntrustedEntry(trusted: string -> bool, appPlatform: bool, r: Request,
                                                 p: string, h: string)
    requires IsTrustedProxy(trusted, r.peer) && !PlatformDecides(appPlatform, r)
    ensures var whole := ClientIp(trusted, appPlatform, r.(xff := Some(p + "," + h)));
            if exists e :: e in ParseXff(Some(h)) && !IsTrustedProxy(trusted, Some(e))
            then whole == ClientIp(trusted, appPlatform, r.(xff := Some(h)))
                 && Some(whole) == FirstUntrustedFromRight(trusted, ParseXff(Some(h)))
            else whole == ClientIp(trusted, appPlatform, r.(xff := Some(p)))
  {
    EntriesJoined(p, h);
    WalkJoined(trusted, ParseXff(Some(p)), ParseXff(Some(h)));
    WalkFindsTheLastUntrusted(trusted, ParseXff(Some(h)));
  }

  // A forwarded-for header can sway the address exactly when the peer is ours, the platform's header does not
  // decide, and some text a header can hold is not the address of a proxy of ours nor the address resolved
  // without one.
  lemma ForwardedForMattersIff(trusted: string -> bool, appPlatform: bool, r: Request)
    ensures (exists h ::
               ClientIp(trusted, appPlatform, r.(xff := Some(h))) != ClientIp(trusted, appPlatform, r.(xff := None)))
            <==> IsTrustedProxy(trusted, r.peer) && !PlatformDecides(appPlatform, r)
                 && exists e :: IsEntry(e) && !trusted(e) && e != ClientIp(trusted, appPlatform, r.(xff := None))
  {
    var plain := ClientIp(trusted, appPlatform, r.(xff := None));
    if IsTrustedProxy(trusted, r.peer) && !PlatformDecides(appPlatform, r) {
      if e :| IsEntry(e) && !trusted(e) && e != plain {
        EntryParsesToItself(e);
        assert [e][..0] == [] && FirstUntrustedFromRight(trusted, [e]) == Some(e);
        assert ClientIp(trusted, appPlatform, r.(xff := Some(e))) == e;
      }
      if h :| ClientIp(trusted, appPlatform, r.(xff := Some(h))) != plain {
        WalkFindsTheLastUntrusted(trusted, ParseXff(Some(h)));
        var e := FirstUntrustedFromRight(trusted, ParseXff(Some(h))).value;
        EntriesAreEntries(h);
        assert IsEntry(e) && !trusted(e) && e != plain;
      }
    }
  }

  // The texts an entry of a header can be.
  predicate IsEntry(e: string) {
    e != "" && ',' !in e && Strip(e) == e
  }

  lemma {:induction false} SplitHasNoComma(s: string)
    ensures forall i :: 0 <= i < |Split(s)| ==> ',' !in Split(s)[i]
    ensures ',' !in s ==> Split(s) == [s]
  {
    if s != "" {
      SplitHasNoComma(s[1..]);
      assert ',' !in s ==> [s[0]] + s[1..] == s;
    }
  }

  lemma EntryParsesToItself(e: string)
    requires IsEntry(e)
    ensures ParseXff(Some(e)) == [e]
  {
    SplitHasNoComma(e);
    assert Trimmed([e]) == [e] + Trimmed([e][1..]);
  }

  lemma StripIsWithin(s: string)
    ensures forall c :: c in Strip(s) ==> c in s
  {
    LeftIsWithin(s);
    RightTrims(StripLeft(s));
  }

  lemma {:induction false} LeftIsWithin(s: string)
    ensures forall c :: c in StripLeft(s) ==> c in s
  {
    if s != "" && IsSpace(s[0]) {
      LeftIsWithin(s[1..]);
    }
  }

  lemma {:induction false} TrimmedAreEntries(parts: seq<string>)
    requires forall i :: 0 <= i < |parts| ==> ',' !in parts[i]
    ensures forall e :: e in Trimmed(parts) ==> IsEntry(e)
  {
    if parts != [] {
      TrimmedAreEntries(parts[1..]);
      StripTrims(parts[0]);
      StripIsWithin(parts[0]);
    }
  }

  lemma EntriesAreEntries(h: string)
    ensures forall e :: e in ParseXff(Some(h)) ==> IsEntry(e)
  {
    SplitHasNoComma(h);
    TrimmedAreEntries(Split(h));
  }

  // The address itself, whoever decides it: the platform's header in its mode; for a peer of ours the last
  // untrusted entry, else the platform's header, else the peer; any other peer itself; and the loopback
  // address when there is no peer.
  lemma AddressInEachCase(trusted: string -> bool, appPlatform: bool, r: Request, peer: string)
    ensures PlatformDecides(appPlatform, r) ==> Some(ClientIp(trusted, appPlatform, r)) == r.doConnectingIp
    ensures !PlatformDecides(appPlatform, r) && !Present(r.peer) ==> ClientIp(trusted, appPlatform, r) == "127.0.0.1"
    ensures !PlatformDecides(appPlatform, r) && r.peer == Some(peer) && peer != "" && !trusted(peer) ==>
              ClientIp(trusted, appPlatform, r) == peer
    ensures !PlatformDecides(appPlatform, r) && r.peer == Some(peer) && peer != "" && trusted(peer) ==>
              var ip := ClientIp(trusted, appPlatform, r);
              if exists e :: e in ParseXff(r.xff) && !trusted(e) then
                exists i :: 0 <= i < |ParseXff(r.xff)| && ip == ParseXff(r.xff)[i] && !trusted(ip)
                            && forall k :: i < k < |ParseXff(r.xff)| ==> trusted(ParseXff(r.xff)[k])
              else if Present(r.doConnectingIp) then Some(ip) == r.doConnectingIp
              else ip == peer
  {
    var entries := ParseXff(r.xff);
    WalkFindsTheLastUntrusted(trusted, entries);
    if r.xff.Some? {
      EntriesAreEntries(r.xff.value);
    }
    assert forall i :: 0 <= i < |entries| ==> entries[i] in entries;
  }

  // A peer that is not ours is its own client: no header but the platform's own matters.
  lemma PublicPeersSpeakForThemselves(trusted: string -> bool, appPlatform: bool, r: Request, r': Request)
    requires !IsTrustedProxy(trusted, r.peer) && r'.peer == r.peer
    requires !PlatformDecides(appPlatform, r) && !PlatformDecides(appPlatform, r')
    ensures ClientIp(trusted, appPlatform, r') == ClientIp(trusted, appPlatform, r)
  {
  }
}
