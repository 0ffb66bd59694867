/** The length-prefixed preimage of an incident identity, and when two alerts share one. */
module Identity {
  import opened Common

  type Byte = b: int | 0 <= b < 256

  const TWO_32: int := 0x1_0000_0000

  /** `len(part).to_bytes(4, "big")` */
  function BigEndian(n: int): (r: seq<Byte>)
    requires 0 <= n < TWO_32
    ensures |r| == 4
  {
    [n / 256 / 256 / 256, n / 256 / 256 % 256, n / 256 % 256, n % 256]
  }

  /** The number whose base-256 digits are those of `n`, then `b`. */
  function Push(n: int, b: Byte): int {
    n * 256 + b
  }

  lemma PushPop(n: int, b: Byte)
    ensures Push(n, b) / 256 == n && Push(n, b) % 256 == b
    ensures Push(n / 256, n % 256) == n
  {
  }

  function FromBigEndian(b: seq<Byte>): (n: int)
    requires |b| == 4
    ensures 0 <= n < TWO_32
  {
    Push(Push(Push(b[0], b[1]), b[2]), b[3])
  }

  lemma BigEndianRoundTrip(n: int)
    requires 0 <= n < TWO_32
    ensures FromBigEndian(BigEndian(n)) == n
  {
    PushPop(n, 0);
    PushPop(n / 256, 0);
    PushPop(n / 256 / 256, 0);
    assert n / 256 / 256 / 256 < 256;
  }

  lemma FromBigEndianRoundTrip(b: seq<Byte>)
    requires |b| == 4
    ensures BigEndian(FromBigEndian(b)) == b
  {
    hide Push;
    PushPop(b[0], b[1]);
    PushPop(Push(b[0], b[1]), b[2]);
    PushPop(Push(Push(b[0], b[1]), b[2]), b[3]);
  }

  /** `int.to_bytes` raises `OverflowError` for a part of 2^32 bytes or more. */
  predicate Encodable(parts: seq<seq<Byte>>) {
    forall i :: 0 <= i < |parts| ==> |parts[i]| < TWO_32
  }

  /** `_encode` */
  function Encode(parts: seq<seq<Byte>>): (r: seq<Byte>)
    requires Encodable(parts)
  {
    if parts == [] then [] else BigEndian(|parts[0]|) + parts[0] + Encode(parts[1..])
  }

  /** Reads one length-prefixed part after another; `None` when a prefix or a part is cut short. */
  function Decode(bytes: seq<Byte>): Option<seq<seq<Byte>>>
    decreases |bytes|
  {
    if bytes == [] then Some([])
    else if |bytes| < 4 then None
    else
      var n := FromBigEndian(bytes[..4]);
      if |bytes| < 4 + n then None
      else
        var rest := Decode(bytes[4 + n..]);
        if rest.None? then None else Some([bytes[4..4 + n]] + rest.value)
  }

  lemma DecodeFirst(head: seq<Byte>, tail: seq<Byte>)
    requires |head| < TWO_32
    ensures var bytes := BigEndian(|head|) + head + tail;
            Decode(bytes) == if Decode(tail).None? then None else Some([head] + Decode(tail).value)
  {
    hide BigEndian, FromBigEndian;
    BigEndianRoundTrip(|head|);
    var bytes := BigEndian(|head|) + head + tail;
    assert bytes[..4] == BigEndian(|head|);
    assert bytes[4..4 + |head|] == head && bytes[4 + |head|..] == tail;
  }

  /** Every list of encodable parts comes back from its encoding. */
  lemma {:induction false} DecodeEncode(parts: seq<seq<Byte>>)
    requires Encodable(parts)
    ensures Decode(Encode(parts)) == Some(parts)
    decreases |parts|
  {
    if parts != [] {
      hide BigEndian, Decode, Encode;
      var head, tail := parts[0], parts[1..];
      DecodeEncode(tail);
      DecodeFirst(head, Encode(tail));
      EncodeFirst(head, tail);
      assert parts == [head] + tail;
    }
  }

  lemma EncodeFirst(head: seq<Byte>, parts: seq<seq<Byte>>)
    requires |head| < TWO_32 && Encodable(parts)
    ensures Encodable([head] + parts) && Encode([head] + parts) == BigEndian(|head|) + head + Encode(parts)
  {
    hide BigEndian;
    assert ([head] + parts)[1..] == parts;
  }

  /** What a decodable prefix and its part say about the bytes. */
  lemma DecodeSplits(bytes: seq<Byte>) returns (first: seq<Byte>, rest: seq<Byte>)
    requires Decode(bytes).Some? && bytes != []
    ensures |first| < TWO_32 && |rest| < |bytes| && bytes == BigEndian(|first|) + first + rest
    ensures Decode(rest).Some? && Decode(bytes).value == [first] + Decode(rest).value
  {
    hide BigEndian, FromBigEndian;
    FromBigEndianRoundTrip(bytes[..4]);
    var n := FromBigEndian(bytes[..4]);
    first, rest := bytes[4..4 + n], bytes[4 + n..];
    assert bytes == bytes[..4] + first + rest;
  }

  /** What decodes at all is the encoding of what it decodes to. */
  lemma {:induction false} EncodeDecode(bytes: seq<Byte>)
    requires Decode(bytes).Some?
    ensures Encodable(Decode(bytes).value) && Encode(Decode(bytes).value) == bytes
    decreases |bytes|
  {
    if bytes != [] {
      hide BigEndian, Decode, Encode;
      var first, rest := DecodeSplits(bytes);
      EncodeDecode(rest);
      EncodeFirst(first, Decode(rest).value);
    }
  }

  /** The encoding is injective. */
  lemma {:induction false} EncodeInjective(a: seq<seq<Byte>>, b: seq<seq<Byte>>)
    requires Encodable(a) && Encodable(b)
    ensures Encode(a) == Encode(b) <==> a == b
  {
    DecodeEncode(a);
    DecodeEncode(b);
  }

  // ----- Incident identity -----

  /** UTF-8 and the set of whitespace characters; only the injectivity of UTF-8 is used. */
  datatype Text = Text(utf8: string -> seq<Byte>, isSpace: char -> bool)

  ghost predicate Injective(utf8: string -> seq<Byte>) {
    forall a: string, b: string {:trigger utf8(a), utf8(b)} :: utf8(a) == utf8(b) ==> a == b
  }

  function StripLeft(t: Text, s: string): string {
    if s != "" && t.isSpace(s[0]) then StripLeft(t, s[1..]) else s
  }

  function StripRight(t: Text, s: string): string {
    if s != "" && t.isSpace(s[|s| - 1]) then StripRight(t, s[..|s| - 1]) else s
  }

  /** `str.strip()` */
  function Strip(t: Text, s: string): string {
    StripRight(t, StripLeft(t, s))
  }

  /** What stripping leaves: all but the white space around it. */
  lemma {:induction false} StripMeans(t: Text, s: string) returns (i: nat, j: nat)
    ensures i <= j <= |s| && Strip(t, s) == s[i..j]
    ensures forall k :: 0 <= k < i || j <= k < |s| ==> t.isSpace(s[k])
    ensures Strip(t, s) != "" ==> !t.isSpace(Strip(t, s)[0]) && !t.isSpace(Strip(t, s)[|Strip(t, s)| - 1])
  {
    i := LeftStripped(t, s);
    var n := RightStripped(t, s[i..]);
    j := i + n;
    assert s[i..][..n] == s[i..j];
    assert forall k :: j <= k < |s| ==> s[k] == s[i..][k - i];
  }

  lemma {:induction false} LeftStripped(t: Text, s: string) returns (i: nat)
    ensures i <= |s| && StripLeft(t, s) == s[i..] && (forall k :: 0 <= k < i ==> t.isSpace(s[k]))
    ensures StripLeft(t, s) != "" ==> !t.isSpace(StripLeft(t, s)[0])
  {
    if s != "" && t.isSpace(s[0]) {
      i := LeftStripped(t, s[1..]);
      assert forall k :: 0 < k < i + 1 ==> s[k] == s[1..][k - 1];
      assert s[1..][i..] == s[i + 1..];
      i := i + 1;
    } else {
      i := 0;
    }
  }

  lemma {:induction false} RightStripped(t: Text, s: string) returns (n: nat)
    ensures n <= |s| && StripRight(t, s) == s[..n] && (forall k :: n <= k < |s| ==> t.isSpace(s[k]))
    ensures StripRight(t, s) != "" ==> !t.isSpace(StripRight(t, s)[|StripRight(t, s)| - 1])
  {
    if s != "" && t.isSpace(s[|s| - 1]) {
      n := RightStripped(t, s[..|s| - 1]);
      assert forall k :: n <= k < |s| - 1 ==> s[k] == s[..|s| - 1][k];
      assert s[..|s| - 1][..n] == s[..n];
    } else {
      n := |s|;
    }
  }

  datatype Alert = Alert(source: string, folder: Option<string>, name: Option<string>, fingerprint: string)

  datatype Field = FOLDER | ALERTNAME | FINGERPRINT

  datatype IncidentIdentity = IncidentIdentity(parts: seq<string>, errors: seq<Field>)

  function Stripped(t: Text, s: Option<string>): string {
    if s.Some? then Strip(t, s.value) else ""
  }

  /** Folder, alert name and fingerprint are all there. */
  predicate ErrorFree(t: Text, a: Alert) {
    Stripped(t, a.folder) != "" && Stripped(t, a.name) != "" && Strip(t, a.fingerprint) != ""
  }

  function FingerprintPart(t: Text, a: Alert): string {
    if Strip(t, a.fingerprint) != "" then Strip(t, a.fingerprint) else "__missing__"
  }

  function Parts(t: Text, a: Alert): seq<string> {
    if ErrorFree(t, a) then ["2", a.source, Stripped(t, a.folder), Stripped(t, a.name)]
    else ["2", a.source, "__invalid__", FingerprintPart(t, a)]
  }

  /** `make_incident_identity_v2` up to the hash. */
  method MakeIdentity(t: Text, a: Alert) returns (r: IncidentIdentity)
    ensures r.parts == Parts(t, a)
    ensures r.parts == if r.errors == [] then ["2", a.source, Stripped(t, a.folder), Stripped(t, a.name)]
                       else ["2", a.source, "__invalid__",
                             if FINGERPRINT in r.errors then "__missing__" else Strip(t, a.fingerprint)]
    ensures r.errors == [] <==> ErrorFree(t, a)
    ensures FOLDER in r.errors <==> Stripped(t, a.folder) == ""
    ensures ALERTNAME in r.errors <==> Stripped(t, a.name) == ""
    ensures FINGERPRINT in r.errors <==> Strip(t, a.fingerprint) == ""
  {
    var errors: seq<Field> := [];
    var folder, name, fingerprint := Stripped(t, a.folder), Stripped(t, a.name), Strip(t, a.fingerprint);
    if folder == "" {
      errors := errors + [FOLDER];
    }
    if name == "" {
      errors := errors + [ALERTNAME];
    }
    if fingerprint == "" {
      errors := errors + [FINGERPRINT];
    }
    var parts;
    if errors != [] {
      parts := ["2", a.source, "__invalid__", if fingerprint != "" then fingerprint else "__missing__"];
    } else {
      parts := ["2", a.source, folder, name];
    }
    r := IncidentIdentity(parts, errors);
  }

  function Bytes(t: Text, parts: seq<string>): (r: seq<seq<Byte>>)
    ensures |r| == |parts| && forall i :: 0 <= i < |r| ==> r[i] == t.utf8(parts[i])
  {
    seq(|parts|, i requires 0 <= i < |parts| => t.utf8(parts[i]))
  }

  predicate Hashable(t: Text, a: Alert) {
    Encodable(Bytes(t, Parts(t, a)))
  }

  /** What is hashed into the identity key. */
  function Preimage(t: Text, a: Alert): seq<Byte>
    requires Hashable(t, a)
  {
    Encode(Bytes(t, Parts(t, a)))
  }

  lemma {:induction false} SamePreimageSameParts(t: Text, a: Alert, b: Alert)
    requires Injective(t.utf8) && Hashable(t, a) && Hashable(t, b)
    ensures Preimage(t, a) == Preimage(t, b) <==> Parts(t, a) == Parts(t, b)
  {
    hide ErrorFree, Stripped, FingerprintPart;
    var x, y := Bytes(t, Parts(t, a)), Bytes(t, Parts(t, b));
    EncodeInjective(x, y);
    if x == y {
      forall i | 0 <= i < 4
        ensures Parts(t, a)[i] == Parts(t, b)[i]
      {
        assert x[i] == t.utf8(Parts(t, a)[i]) && y[i] == t.utf8(Parts(t, b)[i]);
      }
      assert Parts(t, a) == Parts(t, b);
    }
  }

  /**
   When two alerts fall into one incident identity. Error-free alerts do exactly when source, stripped
   folder and stripped name agree. An error-free alert and an invalid one can meet too: exactly when a
   real folder is called `__invalid__` and its alert name is the other's fingerprint part.
   */
  lemma {:induction false} IdentityShared(t: Text, a: Alert, b: Alert)
    requires Injective(t.utf8) && Hashable(t, a) && Hashable(t, b)
    ensures ErrorFree(t, a) && ErrorFree(t, b) ==>
              (Preimage(t, a) == Preimage(t, b) <==>
               a.source == b.source && Stripped(t, a.folder) == Stripped(t, b.folder)
                 && Stripped(t, a.name) == Stripped(t, b.name))
    ensures ErrorFree(t, a) && !ErrorFree(t, b) ==>
              (Preimage(t, a) == Preimage(t, b) <==>
               a.source == b.source && Stripped(t, a.folder) == "__invalid__"
                 && Stripped(t, a.name) == FingerprintPart(t, b))
    ensures !ErrorFree(t, a) && !ErrorFree(t, b) ==>
              (Preimage(t, a) == Preimage(t, b) <==>
               a.source == b.source && FingerprintPart(t, a) == FingerprintPart(t, b))
  {
    hide Stripped, FingerprintPart, ErrorFree;
    SamePreimageSameParts(t, a, b);
    var p, q := Parts(t, a), Parts(t, b);
    assert p == q <==> p[1] == q[1] && p[2] == q[2] && p[3] == q[3];
  }

  lemma NothingToStrip(t: Text, s: string)
    requires s != "" && !t.isSpace(s[0]) && !t.isSpace(s[|s| - 1])
    ensures Strip(t, s) == s
  {
  }

  /**
   A folder named `__invalid__` makes a healthy alert share the identity of an invalid one, whatever
   the whitespace characters are, as long as `_`, `f` and `g` are not among them.
   */
  lemma {:induction false} InvalidFolderCollides(t: Text, source: string)
    requires !t.isSpace('_') && !t.isSpace('f') && !t.isSpace('g')
    ensures var healthy := Alert(source, Some("__invalid__"), Some("f"), "g");
            var broken := Alert(source, None, Some("cpu"), "f");
            && ErrorFree(t, healthy) && !ErrorFree(t, broken) && (Hashable(t, healthy) <==> Hashable(t, broken))
            && (Hashable(t, healthy) ==> Preimage(t, healthy) == Preimage(t, broken))
  {
    NothingToStrip(t, "__invalid__");
    NothingToStrip(t, "f");
    NothingToStrip(t, "g");
  }
}
