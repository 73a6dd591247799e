/**
 Requests, header maps and content negotiation by Vary.

 A header map is Go's `http.Header`: field names in canonical form, each with its field lines.
 `Get` returns the first line.  The names a Vary value lists are obtained by splitting at commas and
 trimming white space, exactly as `matchVary` does.
 */
module Http {

  type Header = map<string, seq<string>>

  datatype Request = Request(reqMethod: string, path: string, header: Header)

  // ---------- field names ----------

  predicate IsTokenChar(c: char) {
    'a' <= c <= 'z' || 'A' <= c <= 'Z' || '0' <= c <= '9' || c in "!#$%&'*+-.^_`|~"
  }

  function ToUpper(c: char): char { if 'a' <= c <= 'z' then c - 32 as char else c }

  function ToLower(c: char): char { if 'A' <= c <= 'Z' then c + 32 as char else c }

  function Capitalize(s: string, upper: bool): (r: string)
    ensures |r| == |s|
  {
    if s == [] then []
    else [if upper then ToUpper(s[0]) else ToLower(s[0])] + Capitalize(s[1..], s[0] == '-')
  }

  /** The canonical form of a field name; a name with a character that no field name may hold is left alone. */
  function Canonical(name: string): string {
    if forall c | c in name :: IsTokenChar(c) then Capitalize(name, true) else name
  }

  /** The first line of the field whose canonical name is `c`. */
  function Line(h: Header, c: string): string {
    if c in h && h[c] != [] then h[c][0] else ""
  }

  function Get(h: Header, name: string): string {
    Line(h, Canonical(name))
  }

  function Set(h: Header, name: string, value: string): Header {
    h[Canonical(name) := [value]]
  }

  // ---------- copying header maps ----------

  predicate Copies(from: Header, k: string, c: string) {
    k in from && from[k] != [] && Canonical(k) == c
  }

  function Last<T>(s: seq<T>): T
    requires s != []
  {
    s[|s| - 1]
  }

  /** Sets the lines of one field in turn: the last one wins. */
  method SetLines(h: Header, name: string, lines: seq<string>) returns (to: Header)
    ensures to == if lines == [] then h else Set(h, name, Last(lines))
  {
    to := h;
    for i := 0 to |lines|
      invariant to == if i == 0 then h else Set(h, name, lines[i - 1])
    {
      to := Set(to, name, lines[i]);
    }
  }

  /**
   Sets every line of `from` in turn, so for each name the last line wins.  Go iterates over a map in no
   particular order; the loop takes the names in any order.
   */
  method CopyHeaders(from: Header, old_to: Header) returns (to: Header)
    ensures forall c :: (forall k :: !Copies(from, k, c)) ==> (c in to <==> c in old_to)
    ensures forall c :: (forall k :: !Copies(from, k, c)) && c in to ==> to[c] == old_to[c]
    ensures forall c, k :: Copies(from, k, c) ==>
      c in to && exists k' :: Copies(from, k', c) && to[c] == [Last(from[k'])]
  {
    to := old_to;
    var rest := from.Keys;
    while rest != {}
      invariant rest <= from.Keys
      invariant forall c :: (forall k :: k !in rest ==> !Copies(from, k, c)) ==> (c in to <==> c in old_to)
      invariant forall c :: (forall k :: k !in rest ==> !Copies(from, k, c)) && c in to ==> to[c] == old_to[c]
      invariant forall c, k :: k !in rest && Copies(from, k, c) ==>
        c in to && exists k' :: Copies(from, k', c) && to[c] == [Last(from[k'])]
      decreases rest
    {
      var k :| k in rest;
      to := SetLines(to, k, from[k]);
      rest := rest - {k};
      assert from[k] != [] ==> Copies(from, k, Canonical(k));
    }
  }

  /** `WriteHeader` keeps a copy of the header map without the Server field. */
  method Snapshot(h: Header) returns (snap: Header)
    ensures forall c :: c in snap ==> exists k :: Copies(h, k, c) && snap[c] == [Last(h[k])]
    ensures forall c, k :: Copies(h, k, c) && c != "Server" ==> c in snap
    ensures "Server" !in snap
  {
    var to := CopyHeaders(h, map[]);
    snap := to - {"Server"};
  }

  /** In a map whose names are canonical, the snapshot shows a field exactly as the map does when its first and last lines agree. */
  lemma SnapshotShowsField(h: Header, snap: Header, name: string)
    requires forall k | k in h :: Canonical(k) == k
    requires forall c :: c in snap ==> exists k :: Copies(h, k, c) && snap[c] == [Last(h[k])]
    requires forall c, k :: Copies(h, k, c) && c != "Server" ==> c in snap
    requires Canonical(name) != "Server" && Canonical(name) in h && h[Canonical(name)] != []
    ensures Get(snap, name) == Get(h, name) <==> h[Canonical(name)][0] == Last(h[Canonical(name)])
  {
    var c := Canonical(name);
    assert Copies(h, c, c);
  }

  // ---------- Vary ----------

  predicate IsSpace(c: char) {
    c in {'\t', '\n', '\r', ' '} || c as int in {0x0B, 0x0C, 0x85, 0xA0, 0x1680, 0x2028, 0x2029, 0x202F, 0x205F, 0x3000}
    || 0x2000 <= c as int <= 0x200A
  }

  function TrimLeft(s: string): string {
    if s != [] && IsSpace(s[0]) then TrimLeft(s[1..]) else s
  }

  function TrimRight(s: string): string {
    if s != [] && IsSpace(Last(s)) then TrimRight(s[..|s| - 1]) else s
  }

  function TrimSpace(s: string): string { TrimRight(TrimLeft(s)) }

  function Split(s: string, sep: char): (parts: seq<string>)
    ensures parts != []
  {
    if s == [] then [[]]
    else
      var rest := Split(s[1..], sep);
      if s[0] == sep then [[]] + rest else [[s[0]] + rest[0]] + rest[1..]
  }

  function Join(parts: seq<string>, sep: char): string
    requires parts != []
  {
    if |parts| == 1 then parts[0] else parts[0] + [sep] + Join(parts[1..], sep)
  }

  /** The names are what lies between the commas: no part holds a comma, and joining the parts gives the value back. */
  lemma {:induction false} SplitJoin(s: string, sep: char)
    ensures Join(Split(s, sep), sep) == s
    ensures forall i :: 0 <= i < |Split(s, sep)| ==> sep !in Split(s, sep)[i]
  {
    if s != [] {
      SplitJoin(s[1..], sep);
      var rest := Split(s[1..], sep);
      var parts := Split(s, sep);
      if s[0] == sep {
        assert parts[1..] == rest;
        assert Join(parts, sep) == [] + [sep] + Join(rest, sep);
      } else if |rest| > 1 {
        assert parts[1..] == rest[1..];
        assert Join(parts, sep) == [s[0]] + (rest[0] + [sep] + Join(rest[1..], sep));
      }
    }
  }

  function VaryNames(vary: string): seq<string> {
    var parts := Split(vary, ',');
    seq(|parts|, i requires 0 <= i < |parts| => TrimSpace(parts[i]))
  }

  /** The header values that decide which variant a request selects. */
  function Variant(vary: string, h: Header): seq<string> {
    var names := VaryNames(vary);
    seq(|names|, i requires 0 <= i < |names| => Get(h, names[i]))
  }

  /** Two requests agree on every field that `vary` names. */
  predicate Agree(vary: string, h1: Header, h2: Header) {
    var names := VaryNames(vary);
    forall i :: 0 <= i < |names| ==> Get(h1, names[i]) == Get(h2, names[i])
  }

  lemma AgreeIsSameVariant(vary: string, h1: Header, h2: Header)
    ensures Agree(vary, h1, h2) <==> Variant(vary, h1) == Variant(vary, h2)
  {
    var names := VaryNames(vary);
    if Variant(vary, h1) == Variant(vary, h2) {
      forall i | 0 <= i < |names| ensures Get(h1, names[i]) == Get(h2, names[i]) {
        assert Variant(vary, h1)[i] == Variant(vary, h2)[i];
      }
    }
  }

  // ---------- what a request can carry ----------

  predicate IsFieldName(name: string) { name != "" && forall c | c in name :: IsTokenChar(c) }

  /**
   The server rejects a request with a field name that is empty or holds a character no field name may hold, and
   keeps the others in canonical form.
   */
  predicate Receivable(h: Header) { forall k | k in h :: IsFieldName(k) && Canonical(k) == k }

  lemma {:induction false} CapitalizeKeepsTokens(s: string, upper: bool)
    requires forall c | c in s :: IsTokenChar(c)
    ensures forall c | c in Capitalize(s, upper) :: IsTokenChar(c)
  {
    if s != [] {
      CapitalizeKeepsTokens(s[1..], s[0] == '-');
      assert IsTokenChar(s[0]);
    }
  }

  lemma {:induction false} CapitalizeTwice(s: string, upper: bool)
    ensures Capitalize(Capitalize(s, upper), upper) == Capitalize(s, upper)
  {
    if s != [] {
      CapitalizeTwice(s[1..], s[0] == '-');
      var once := Capitalize(s, upper);
      assert once[1..] == Capitalize(s[1..], s[0] == '-') && (once[0] == '-' <==> s[0] == '-');
    }
  }

  lemma CanonicalIsFieldName(name: string)
    ensures IsFieldName(Canonical(name)) <==> IsFieldName(name)
    ensures Canonical(Canonical(name)) == Canonical(name)
  {
    if forall c | c in name :: IsTokenChar(c) {
      CapitalizeKeepsTokens(name, true);
      CapitalizeTwice(name, true);
    }
  }

  /** A name that is no field name, such as the empty one, reads as empty in whatever can be received. */
  lemma NoFieldReadsEmpty(h: Header, name: string)
    requires Receivable(h) && !IsFieldName(name)
    ensures Get(h, name) == ""
  {
    CanonicalIsFieldName(name);
  }

  /** Every field that `vary2` names is named by `vary1`, in any spelling; parts that are no field name do not matter. */
  predicate Covers(vary1: string, vary2: string) {
    forall i :: 0 <= i < |VaryNames(vary2)| && IsFieldName(VaryNames(vary2)[i]) ==> Names(vary1, Canonical(VaryNames(vary2)[i]))
  }

  predicate Names(vary: string, c: string) {
    exists j :: 0 <= j < |VaryNames(vary)| && Canonical(VaryNames(vary)[j]) == c
  }

  lemma CoversAgree(vary1: string, vary2: string, h1: Header, h2: Header)
    requires Receivable(h1) && Receivable(h2) && Covers(vary1, vary2) && Agree(vary1, h1, h2)
    ensures Agree(vary2, h1, h2)
  {
    hide Canonical, VaryNames, IsFieldName;
    forall i | 0 <= i < |VaryNames(vary2)| ensures Get(h1, VaryNames(vary2)[i]) == Get(h2, VaryNames(vary2)[i]) {
      var name := VaryNames(vary2)[i];
      if IsFieldName(name) {
        assert Names(vary1, Canonical(name));
        var j :| 0 <= j < |VaryNames(vary1)| && Canonical(VaryNames(vary1)[j]) == Canonical(name);
        assert Get(h1, VaryNames(vary1)[j]) == Get(h2, VaryNames(vary1)[j]);
      } else {
        NoFieldReadsEmpty(h1, name);
        NoFieldReadsEmpty(h2, name);
      }
    }
  }

  /** A header map that differs from `h` in one field that `vary1` does not name, and in which `vary2` sees a difference from `other`. */
  lemma Distinguish(vary1: string, vary2: string, h: Header, other: Header) returns (h': Header)
    requires !Covers(vary1, vary2) && Receivable(h)
    ensures Receivable(h') && Agree(vary1, h', h) && !Agree(vary2, h', other)
  {
    hide Canonical, VaryNames, IsFieldName;
    var i :| 0 <= i < |VaryNames(vary2)| && IsFieldName(VaryNames(vary2)[i]) && !Names(vary1, Canonical(VaryNames(vary2)[i]));
    var name := VaryNames(vary2)[i];
    CanonicalIsFieldName(name);
    h' := h[Canonical(name) := [if Get(other, name) == "" then "1" else ""]];
    assert Get(h', name) != Get(other, name);
    forall j | 0 <= j < |VaryNames(vary1)| ensures Get(h', VaryNames(vary1)[j]) == Get(h, VaryNames(vary1)[j]) {
      assert Canonical(VaryNames(vary1)[j]) != Canonical(name);
    }
  }

  /** For what can be received, agreement on one Vary value carries over to another exactly when the first covers the second. */
  lemma AgreeCarriesOver(vary1: string, vary2: string)
    ensures (forall h1, h2 :: Receivable(h1) && Receivable(h2) && Agree(vary1, h1, h2) ==> Agree(vary2, h1, h2)) <==> Covers(vary1, vary2)
  {
    hide Covers, Agree;
    if Covers(vary1, vary2) {
      forall h1, h2 | Receivable(h1) && Receivable(h2) && Agree(vary1, h1, h2) ensures Agree(vary2, h1, h2) {
        CoversAgree(vary1, vary2, h1, h2);
      }
    } else {
      var none: Header := map[];
      var h := Distinguish(vary1, vary2, none, none);
      assert Receivable(h) && Receivable(none) && Agree(vary1, h, none) && !Agree(vary2, h, none);
    }
  }

  /** The loop of `matchVary`: split, trim, compare, stop at the first difference. */
  method MatchVary(vary: string, current: Header, stored: Header) returns (matches: bool)
    ensures matches <==> Agree(vary, current, stored)
  {
    var parts := Split(vary, ',');
    for i := 0 to |parts|
      invariant forall j :: 0 <= j < i ==> Get(current, VaryNames(vary)[j]) == Get(stored, VaryNames(vary)[j])
    {
      var searched := TrimSpace(parts[i]);
      if Get(current, searched) != Get(stored, searched) {
        assert searched == VaryNames(vary)[i];
        return false;
      }
    }
    return true;
  }
}
