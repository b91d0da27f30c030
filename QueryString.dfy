/** URL query strings as the browser and the server handle them: a `URLSearchParams` object
    built by `append` and `delete` and serialised by `toString` (form-urlencoded), and the
    server side's `new URL(req.url).searchParams.get(name)`. */
module QueryString {
  import opened Maybe

  datatype Param = Param(name: string, value: string)

  type Params = seq<Param>

  /** `searchParams.get(name)`: the value of the first entry with that name. */
  function Lookup(ps: Params, name: string): (r: Option<string>)
    ensures r.None? <==> forall i :: 0 <= i < |ps| ==> ps[i].name != name
    ensures r.Some? ==> exists i | 0 <= i < |ps| ::
      ps[i] == Param(name, r.value) && forall j | 0 <= j < i :: ps[j].name != name
  {
    if ps == [] then None
    else if ps[0].name == name then Some(ps[0].value)
    else Lookup(ps[1..], name)
  }

  /** The entries of `ps` whose name is not `name`, in their original order (`delete`). */
  function Remove(ps: Params, name: string): (r: Params)
    ensures |r| <= |ps|
    ensures forall p :: p in r <==> p in ps && p.name != name
    ensures forall p: Param :: p.name != name ==> multiset(r)[p] == multiset(ps)[p]
  {
    if ps == [] then []
    else
      assert ps == [ps[0]] + ps[1..];
      if ps[0].name == name then Remove(ps[1..], name)
      else [ps[0]] + Remove(ps[1..], name)
  }

  /** `delete` goes entry by entry, so the entries it keeps stay in their order. */
  lemma {:induction false} RemoveDistributes(a: Params, b: Params, name: string)
    ensures Remove(a + b, name) == Remove(a, name) + Remove(b, name)
  {
    if a == [] {
      assert a + b == b;
    } else {
      var ab := a + b;
      assert ab[0] == a[0] && ab[1..] == a[1..] + b;
      RemoveDistributes(a[1..], b, name);
      if a[0].name != name {
        calc {
          Remove(ab, name);
          [a[0]] + Remove(a[1..] + b, name);
          [a[0]] + (Remove(a[1..], name) + Remove(b, name));
          ([a[0]] + Remove(a[1..], name)) + Remove(b, name);
        }
      }
    }
  }

  /** Deleting one name does not change what `get` returns for any other name. */
  lemma {:induction false} LookupRemove(ps: Params, name: string, other: string)
    requires other != name
    ensures Lookup(Remove(ps, name), other) == Lookup(ps, other)
  {
    if ps != [] {
      LookupRemove(ps[1..], name, other);
    }
  }

  /** `get` on a list with a known first entry. */
  lemma LookupCons(p: Param, ps: Params, name: string)
    ensures Lookup([p] + ps, name) == if p.name == name then Some(p.value) else Lookup(ps, name)
  {
    assert ([p] + ps)[1..] == ps;
  }

  /** A mutable `URLSearchParams`. */
  class SearchParams {
    var entries: Params

    /** `new URLSearchParams({...})`: the initial entries in the given order. */
    constructor (init: Params)
      ensures entries == init
    {
      entries := init;
    }

    function Get(name: string): Option<string>
      reads this
    {
      Lookup(entries, name)
    }

    method Append(name: string, value: string)
      modifies this
      ensures entries == old(entries) + [Param(name, value)]
    {
      entries := entries + [Param(name, value)];
    }

    method Delete(name: string)
      modifies this
      ensures entries == Remove(old(entries), name)
    {
      entries := Remove(entries, name);
    }

    /** `params.toString()`. */
    function ToString(): string
      reads this
    {
      Serialize(entries)
    }
  }

  // ---------------------------------------------------------------------
  // Form-urlencoding. The encoder escapes the characters that would change how
  // the query string splits (`%`, `&`, `=`, `+`, `#`, space); the decoder is the
  // server's general one.
  // ---------------------------------------------------------------------

  predicate IsHexDigit(c: char) {
    ('0' <= c <= '9') || ('A' <= c <= 'F') || ('a' <= c <= 'f')
  }

  function HexValue(c: char): (v: nat)
    requires IsHexDigit(c)
    ensures v < 16
  {
    if '0' <= c <= '9' then c as int - '0' as int
    else if 'A' <= c <= 'F' then c as int - 'A' as int + 10
    else c as int - 'a' as int + 10
  }

  /** A character the encoder must escape. */
  predicate IsReserved(c: char) {
    c == '%' || c == '&' || c == '=' || c == '+' || c == '#' || c == ' '
  }

  function EncodeChar(c: char): (e: string)
    ensures forall i :: 0 <= i < |e| ==> e[i] != '&' && e[i] != '=' && e[i] != '#'
  {
    match c
    case ' ' => "+"
    case '%' => "%25"
    case '&' => "%26"
    case '=' => "%3D"
    case '+' => "%2B"
    case '#' => "%23"
    case _ => [c]
  }

  /** Form-urlencoding of one name or value. */
  function Encode(s: string): (e: string)
    ensures forall i :: 0 <= i < |e| ==> e[i] != '&' && e[i] != '=' && e[i] != '#'
  {
    if s == [] then [] else EncodeChar(s[0]) + Encode(s[1..])
  }

  /** Form-urldecoding: `+` is a space, `%XY` the character with that code, anything else itself. */
  function Decode(t: string): string
  {
    if t == [] then []
    else if t[0] == '+' then [' '] + Decode(t[1..])
    else if t[0] == '%' && |t| >= 3 && IsHexDigit(t[1]) && IsHexDigit(t[2])
    then [(HexValue(t[1]) * 16 + HexValue(t[2])) as char] + Decode(t[3..])
    else [t[0]] + Decode(t[1..])
  }

  lemma DecodeEncodedChar(c: char, rest: string)
    ensures Decode(EncodeChar(c) + rest) == [c] + Decode(rest)
  {
    var t := EncodeChar(c) + rest;
    if IsReserved(c) && c != ' ' {
      assert t[3..] == rest;
    } else {
      assert t[1..] == rest;
    }
  }

  /** Decoding undoes encoding, for every string. */
  lemma {:induction false} DecodeEncode(s: string)
    ensures Decode(Encode(s)) == s
  {
    if s != [] {
      DecodeEncodedChar(s[0], Encode(s[1..]));
      DecodeEncode(s[1..]);
    }
  }

  /** A string the encoder leaves as it is. */
  predicate UrlSafe(s: string) {
    forall i :: 0 <= i < |s| ==> !IsReserved(s[i])
  }

  lemma {:induction false} EncodeUrlSafe(s: string)
    requires UrlSafe(s)
    ensures Encode(s) == s
  {
    if s != [] {
      EncodeUrlSafe(s[1..]);
    }
  }

  function SerializeParam(p: Param): (r: string)
    ensures '=' in r
  {
    Encode(p.name) + "=" + Encode(p.value)
  }

  /** `URLSearchParams.toString()`: the encoded `name=value` pairs joined by `&`. */
  function Serialize(ps: Params): string
  {
    if ps == [] then ""
    else if |ps| == 1 then SerializeParam(ps[0])
    else SerializeParam(ps[0]) + "&" + Serialize(ps[1..])
  }

  // ---------------------------------------------------------------------
  // The server side: the query part of a URL and its parse.
  // ---------------------------------------------------------------------

  /** The index of the first `c` in `s`, or `|s|` when there is none. */
  function IndexOf(s: string, c: char): (k: nat)
    ensures k <= |s| && (k < |s| ==> s[k] == c)
    ensures forall j :: 0 <= j < k ==> s[j] != c
  {
    if s == [] || s[0] == c then 0 else 1 + IndexOf(s[1..], c)
  }

  /** One `name=value` piece, split at its first `=`; a piece without `=` has an empty value. */
  function ParsePiece(piece: string): Param
  {
    var e := IndexOf(piece, '=');
    if e < |piece| then Param(Decode(piece[..e]), Decode(piece[e + 1..]))
    else Param(Decode(piece), "")
  }

  /** The entries of a query string: its `&`-separated non-empty pieces, in order. */
  function ParseQuery(q: string): Params
    decreases |q|
  {
    if q == [] then []
    else
      var k := IndexOf(q, '&');
      var first := if q[..k] == [] then [] else [ParsePiece(q[..k])];
      if k < |q| then first + ParseQuery(q[k + 1..]) else first
  }

  /** The query of a URL: what follows its first `?`, up to a `#`. */
  function QueryOf(url: string): string
  {
    var q := IndexOf(url, '?');
    if q == |url| then ""
    else
      var rest := url[q + 1..];
      rest[..IndexOf(rest, '#')]
  }

  lemma {:induction false} IndexOfConcat(a: string, b: string, c: char)
    requires c !in a
    ensures IndexOf(a + b, c) == |a| + IndexOf(b, c)
  {
    if a == [] {
      assert a + b == b;
    } else {
      assert a[0] in a;
      assert (a + b)[0] == a[0];
      assert (a + b)[1..] == a[1..] + b;
      IndexOfConcat(a[1..], b, c);
    }
  }

  /** A piece splits at the first `=`, which is the one after the name when the name has none. */
  lemma ParsePieceSplit(n: string, v: string)
    requires '=' !in n
    ensures ParsePiece(n + "=" + v) == Param(Decode(n), Decode(v))
  {
    var piece := n + "=" + v;
    assert piece == n + ("=" + v);
    IndexOfConcat(n, "=" + v, '=');
    assert IndexOf(piece, '=') == |n|;
    assert piece[..|n|] == n;
    assert piece[|n| + 1..] == v;
  }

  lemma ParseSerializedParam(p: Param)
    ensures ParsePiece(SerializeParam(p)) == p
  {
    var n := Encode(p.name);
    assert '=' !in n by {
      forall i | 0 <= i < |n| ensures n[i] != '=' {}
    }
    ParsePieceSplit(n, Encode(p.value));
    DecodeEncode(p.name);
    DecodeEncode(p.value);
  }

  /** A query string made of one piece without `&`. */
  lemma ParseQuerySingle(piece: string)
    requires piece != [] && '&' !in piece
    ensures ParseQuery(piece) == [ParsePiece(piece)]
  {
    assert IndexOf(piece, '&') == |piece|;
    assert piece[..|piece|] == piece;
  }

  /** A query string whose first piece ends at the first `&`. */
  lemma ParseQueryCons(piece: string, rest: string)
    requires piece != [] && '&' !in piece
    ensures ParseQuery(piece + "&" + rest) == [ParsePiece(piece)] + ParseQuery(rest)
  {
    var q := piece + "&" + rest;
    assert q == piece + ("&" + rest);
    IndexOfConcat(piece, "&" + rest, '&');
    assert q[..|piece|] == piece;
    assert q[|piece| + 1..] == rest;
  }

  lemma {:induction false} SerializeHasNoHash(ps: Params)
    ensures '#' !in Serialize(ps)
  {
    if |ps| > 1 {
      SerializeHasNoHash(ps[1..]);
    }
  }

  /** Parsing a serialised parameter list gives back the list: what the browser's
      `URLSearchParams` sends is what the server's `searchParams` reads. */
  lemma {:induction false} ParseSerialize(ps: Params)
    ensures ParseQuery(Serialize(ps)) == ps
  {
    if ps != [] {
      var head := SerializeParam(ps[0]);
      assert '&' !in head;
      ParseSerializedParam(ps[0]);
      if |ps| == 1 {
        ParseQuerySingle(head);
      } else {
        ParseQueryCons(head, Serialize(ps[1..]));
        ParseSerialize(ps[1..]);
      }
    }
  }

  /** The query of `path?q` is `q` when the path has no `?` and the query no `#`. */
  lemma QueryOfJoined(path: string, q: string)
    requires '?' !in path && '#' !in q
    ensures QueryOf(path + "?" + q) == q
  {
    var url := path + "?" + q;
    assert url == path + ("?" + q);
    IndexOfConcat(path, "?" + q, '?');
    var rest := url[|path| + 1..];
    assert rest == q;
    IndexOfConcat(q, [], '#');
    assert q + [] == q;
    assert rest[..|q|] == q;
  }

  /** The URL `path + "?" + params.toString()` that `fetch` requests, read back on the server. */
  lemma QueryOfRequestUrl(path: string, ps: Params)
    requires '?' !in path
    ensures QueryOf(path + "?" + Serialize(ps)) == Serialize(ps)
    ensures ParseQuery(QueryOf(path + "?" + Serialize(ps))) == ps
  {
    SerializeHasNoHash(ps);
    QueryOfJoined(path, Serialize(ps));
    ParseSerialize(ps);
  }
}
