/** The caller's address behind reverse proxies (`app/core/client_ip.py`): counted in from
    the right of the last `X-Forwarded-For`, past the proxies we run. `parse` stands for
    the standard library's address parser. */
module ClientIp {
  import opened Wrappers
  import opened Text

  type Parser = string -> Option<string>

  function ValidAddress(candidate: string, parse: Parser): Option<string> {
    parse(Strip(candidate))
  }

  function DirectAddress(direct: Option<string>, parse: Parser): Option<string> {
    if direct.None? || direct.value == "" then None else ValidAddress(direct.value, parse)
  }

  /** `[entry.strip() for entry in header.split(",")]` */
  function Entries(header: string): (entries: seq<string>)
    ensures |entries| == |Split(header, ',')| > 0
  {
    var pieces := Split(header, ',');
    seq(|pieces|, i requires 0 <= i < |pieces| => Strip(pieces[i]))
  }

  function ResolveClientIp(direct: Option<string>, forwarded: seq<string>, proxies: nat, parse: Parser): Option<string> {
    if proxies == 0 || forwarded == [] then DirectAddress(direct, parse)
    else
      var entries := Entries(forwarded[|forwarded| - 1]);
      var skip := proxies - 1;
      var index := |entries| - 1 - skip;
      if index < 0 then None else ValidAddress(entries[index], parse)
  }

  /** With no proxy in front, or no header, the socket's own address counts and no header does. */
  lemma SocketAddressCounts(direct: Option<string>, forwarded: seq<string>, proxies: nat, parse: Parser)
    requires proxies == 0 || forwarded == []
    ensures ResolveClientIp(direct, forwarded, proxies, parse) ==
            if direct.Some? && direct.value != "" then parse(Strip(direct.value)) else None
  {
  }

  /** The last `n` entries of a header. */
  function LastPieces(header: string, n: nat): seq<string>
    requires n <= |Split(header, ',')|
  {
    var pieces := Split(header, ',');
    pieces[|pieces| - n..]
  }

  /** The address is the one written `n` entries from the right. */
  lemma CountsFromTheRight(n: nat, direct: Option<string>, earlier: seq<string>, h: string, parse: Parser)
    requires 1 <= n <= |Split(h, ',')|
    ensures ResolveClientIp(direct, earlier + [h], n, parse) == ValidAddress(Strip(LastPieces(h, n)[0]), parse)
  {
    hide Split, Strip, ValidAddress;
    assert (earlier + [h])[|earlier|] == h;
    assert LastPieces(h, n)[0] == Split(h, ',')[|Split(h, ',')| - n];
  }

  /** With `n` trusted proxies, two requests whose last headers agree on their last `n`
      entries resolve alike, whatever else either of them carries. */
  lemma LastEntriesDecide(n: nat, direct: Option<string>, earlier: seq<string>, h: string,
                          direct': Option<string>, earlier': seq<string>, h': string, parse: Parser)
    requires 1 <= n <= |Split(h, ',')| && n <= |Split(h', ',')| && LastPieces(h, n) == LastPieces(h', n)
    ensures ResolveClientIp(direct, earlier + [h], n, parse) == ResolveClientIp(direct', earlier' + [h'], n, parse)
  {
    CountsFromTheRight(n, direct, earlier, h, parse);
    CountsFromTheRight(n, direct', earlier', h', parse);
  }

  /** What a caller writes in front of `n` entries, and in front of the last header, never matters. */
  lemma PrependingChangesNothing(n: nat, direct: Option<string>, earlier: seq<string>, h: string,
                                 forged: seq<string>, text: string, parse: Parser)
    requires 1 <= n <= |Split(h, ',')|
    ensures ResolveClientIp(direct, forged + [text + "," + h], n, parse) == ResolveClientIp(direct, earlier + [h], n, parse)
  {
    hide ResolveClientIp, Split;
    SplitOfConcat(text, ',', h);
    assert LastPieces(text + "," + h, n) == LastPieces(h, n);
    LastEntriesDecide(n, direct, forged, text + "," + h, direct, earlier, h, parse);
  }

  /** A header shorter than the proxy chain establishes nothing. */
  lemma ShortHeaderIsRefused(n: nat, direct: Option<string>, earlier: seq<string>, h: string, parse: Parser)
    requires |Split(h, ',')| < n
    ensures ResolveClientIp(direct, earlier + [h], n, parse) == None
  {
  }

  /** Each trusted proxy appends the address it heard from. */
  function Appended(header: string, hops: seq<string>): string {
    if hops == [] then header else Appended(header, hops[..|hops| - 1]) + "," + hops[|hops| - 1]
  }

  lemma {:induction false} AppendedPieces(header: string, hops: seq<string>)
    requires forall h <- hops :: ',' !in h
    ensures Split(Appended(header, hops), ',') == Split(header, ',') + hops
  {
    if hops == [] {
      assert Split(header, ',') + hops == Split(header, ',');
    } else {
      var front, last := hops[..|hops| - 1], hops[|hops| - 1];
      assert forall h <- front :: h in hops;
      assert last in hops;
      AppendedPieces(header, front);
      SplitOfConcat(Appended(header, front), ',', last);
      SplitWithout(last, ',');
      assert hops == front + [last];
    }
  }

  /** A request through `n` proxies, each appending its peer's address, resolves to the
      first one appended: the address our outermost proxy saw, whatever header it was sent. */
  lemma OutermostPeerIsResolved(direct: Option<string>, forged: seq<string>, header: string, hops: seq<string>, parse: Parser)
    requires hops != [] && forall h <- hops :: ',' !in h
    ensures ResolveClientIp(direct, forged + [Appended(header, hops)], |hops|, parse) == ValidAddress(Strip(hops[0]), parse)
  {
    AppendedPieces(header, hops);
    hide ResolveClientIp, Split;
    var h := Appended(header, hops);
    CountsFromTheRight(|hops|, direct, forged, h, parse);
    assert LastPieces(h, |hops|) == hops;
  }
}
