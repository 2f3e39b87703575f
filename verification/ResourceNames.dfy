/**
 * Names of blobs on a ByteStream connection: as clients write them
 * (content_addressable_storage_blob_access.go) and as the server reads them (byte_stream_server.go).
 */
module ResourceNames {
  import opened Wrappers
  import opened Cursors

  datatype Digest = Digest(instance: string, hash: string, size: int)

  datatype NameError = InvalidNamingScheme | InvalidDigest

  predicate IsHexDigit(c: char) {
    '0' <= c <= '9' || 'a' <= c <= 'f'
  }

  /** The validation that every digest has gone through. */
  predicate IsValid(d: Digest) {
    (|d.hash| == 32 || |d.hash| == 40 || |d.hash| == 64) && (forall c | c in d.hash :: IsHexDigit(c)) && 0 <= d.size
  }

  function NewDigest(instance: string, hash: string, size: int): Result<Digest, NameError> {
    var d := Digest(instance, hash, size);
    if IsValid(d) then Ok(d) else Err(InvalidDigest)
  }

  // ---------------------------------------------------------------------------------------------
  // Fields between slashes
  // ---------------------------------------------------------------------------------------------

  function Flush(field: string): seq<string> {
    if field == "" then [] else [field]
  }

  /** The fields that are not empty, with `field` already read. */
  function FieldsFrom(field: string, s: string): seq<string>
    decreases |s|
  {
    if s == "" then Flush(field)
    else if s[0] == '/' then Flush(field) + FieldsFrom("", s[1..])
    else FieldsFrom(field + [s[0]], s[1..])
  }

  function Fields(s: string): seq<string> {
    FieldsFrom("", s)
  }

  lemma {:induction false} FieldsOfPath(field: string, a: string, b: string)
    ensures FieldsFrom(field, a + "/" + b) == FieldsFrom(field, a) + Fields(b)
    decreases |a|
  {
    var s := a + "/" + b;
    if a == "" {
      assert s[1..] == b;
    } else {
      assert s[1..] == a[1..] + "/" + b;
      if a[0] == '/' {
        FieldsOfPath("", a[1..], b);
      } else {
        FieldsOfPath(field + [a[0]], a[1..], b);
      }
    }
  }

  lemma {:induction false} FieldsOfWord(field: string, w: string)
    requires '/' !in w
    ensures FieldsFrom(field, w) == Flush(field + w)
    decreases |w|
  {
    if w == "" {
      assert field + w == field;
    } else {
      FieldsOfWord(field + [w[0]], w[1..]);
      assert field + [w[0]] + w[1..] == field + w;
    }
  }

  lemma {:induction false} FieldsHaveNoSlash(field: string, s: string)
    requires '/' !in field
    ensures forall f | f in FieldsFrom(field, s) :: '/' !in f
    decreases |s|
  {
    if s != "" {
      FieldsHaveNoSlash(if s[0] == '/' then "" else field + [s[0]], s[1..]);
    }
  }

  // ---------------------------------------------------------------------------------------------
  // Decimal numbers
  // ---------------------------------------------------------------------------------------------

  function ToDecimal(n: nat): (s: string)
    ensures s != "" && forall c | c in s :: '0' <= c <= '9'
  {
    var digit := ['0' + (n % 10) as char];
    if n < 10 then digit else ToDecimal(n / 10) + digit
  }

  /** The value of a string of digits; nothing else is a number. */
  function ParseDigits(s: string): Option<int>
    decreases |s|
  {
    if s == "" then Some(0)
    else
      var c := s[|s| - 1];
      var front := ParseDigits(s[..|s| - 1]);
      if front.None? || !('0' <= c <= '9') then None else Some(10 * front.value + (c as int - '0' as int))
  }

  /** Signed decimal numbers of 64 bits. */
  function ParseInt(s: string): Option<int> {
    var negative := s != "" && s[0] == '-';
    var digits := if s != "" && (s[0] == '-' || s[0] == '+') then s[1..] else s;
    var n := if digits == "" then None else ParseDigits(digits);
    if n.None? then None
    else
      var v: int := if negative then -n.value else n.value;
      if -TWO_63 <= v < TWO_63 then Some(v) else None
  }

  lemma {:induction false} ParseDigitsOfDecimal(n: nat)
    ensures ParseDigits(ToDecimal(n)) == Some(n)
    decreases n
  {
    var s := ToDecimal(n);
    if n < 10 {
      assert s[..|s| - 1] == "";
    } else {
      ParseDigitsOfDecimal(n / 10);
      assert s[..|s| - 1] == ToDecimal(n / 10);
    }
  }

  lemma ParseIntOfDecimal(n: nat)
    requires n < TWO_63
    ensures ParseInt(ToDecimal(n)) == Some(n)
  {
    ParseDigitsOfDecimal(n);
    assert ToDecimal(n)[0] in ToDecimal(n);
  }

  lemma {:induction false} ParseDigitsIff(s: string)
    ensures ParseDigits(s).Some? <==> forall i | 0 <= i < |s| :: '0' <= s[i] <= '9'
    ensures ParseDigits(s).Some? ==> 0 <= ParseDigits(s).value
    decreases |s|
  {
    if s != "" {
      ParseDigitsIff(s[..|s| - 1]);
      assert forall i | 0 <= i < |s| - 1 :: s[..|s| - 1][i] == s[i];
    }
  }

  /** Signs are accepted, and numbers that do not fit in 64 bits are not. */
  lemma ParseIntOfSigned(n: int)
    requires 0 <= n
    ensures ParseInt("+" + ToDecimal(n)) == ParseInt(ToDecimal(n)) == (if n < TWO_63 then Some(n) else None)
    ensures ParseInt("-" + ToDecimal(n)) == if n <= TWO_63 then Some(-n) else None
  {
    hide ToDecimal, ParseDigits;
    ParseDigitsOfDecimal(n);
    var s := ToDecimal(n);
    assert s[0] in s && ("+" + s)[1..] == s && ("-" + s)[1..] == s;
  }

  /** Nothing but digits after at most one sign is a number. */
  lemma ParseIntNeedsDigits(s: string)
    requires ParseInt(s).Some?
    ensures s != "" && forall i | 1 <= i < |s| :: '0' <= s[i] <= '9'
    ensures s[0] == '+' || s[0] == '-' || '0' <= s[0] <= '9'
  {
    var digits := if s[0] == '-' || s[0] == '+' then s[1..] else s;
    ParseDigitsIff(digits);
    forall i | 1 <= i < |s| ensures '0' <= s[i] <= '9' {
      assert s[i] == digits[if digits == s then i else i - 1];
    }
  }

  // ---------------------------------------------------------------------------------------------
  // Names
  // ---------------------------------------------------------------------------------------------

  function ReadName(d: Digest): string
    requires 0 <= d.size
  {
    var name := "blobs" + "/" + (d.hash + "/" + ToDecimal(d.size));
    if d.instance == "" then name else d.instance + "/" + name
  }

  function WriteName(d: Digest, uuid: string): string
    requires 0 <= d.size
  {
    var name := "uploads" + "/" + (uuid + "/" + ("blobs" + "/" + (d.hash + "/" + ToDecimal(d.size))));
    if d.instance == "" then name else d.instance + "/" + name
  }

  function ParseReadName(name: string): Result<Digest, NameError> {
    var fields := Fields(name);
    var l := |fields|;
    if (l != 3 && l != 4) || fields[l - 3] != "blobs" then Err(InvalidNamingScheme)
    else
      var size := ParseInt(fields[l - 1]);
      if size.None? then Err(InvalidNamingScheme)
      else NewDigest(if l == 4 then fields[0] else "", fields[l - 2], size.value)
  }

  function ParseWriteName(name: string): Result<Digest, NameError> {
    var fields := Fields(name);
    var l := |fields|;
    if (l != 5 && l != 6) || fields[l - 5] != "uploads" || fields[l - 3] != "blobs" then Err(InvalidNamingScheme)
    else
      var size := ParseInt(fields[l - 1]);
      if size.None? then Err(InvalidNamingScheme)
      else NewDigest(if l == 6 then fields[0] else "", fields[l - 2], size.value)
  }

  predicate IsWord(w: string) {
    w != "" && '/' !in w
  }

  lemma FieldsOfWordPath(w: string, rest: string)
    requires IsWord(w)
    ensures Fields(w + "/" + rest) == [w] + Fields(rest)
  {
    FieldsOfPath("", w, rest);
    FieldsOfWord("", w);
    assert "" + w == w;
  }

  lemma FieldsOfBlob(d: Digest)
    requires IsValid(d)
    ensures Fields("blobs" + "/" + (d.hash + "/" + ToDecimal(d.size))) == ["blobs", d.hash, ToDecimal(d.size)]
  {
    var size := ToDecimal(d.size);
    assert IsWord(d.hash);
    FieldsOfWordPath("blobs", d.hash + "/" + size);
    FieldsOfWordPath(d.hash, size);
    FieldsOfWord("", size);
    assert "" + size == size;
  }

  lemma FieldsOfInstance(instance: string, rest: string)
    ensures Fields(if instance == "" then rest else instance + "/" + rest) == Fields(instance) + Fields(rest)
  {
    if instance != "" {
      FieldsOfPath("", instance, rest);
    }
  }

  /** An instance name is its own one field, or none if it is empty, exactly if it has no slash. */
  lemma InstanceFields(instance: string)
    ensures '/' !in instance ==> Fields(instance) == Flush(instance)
    ensures '/' in instance ==> Fields(instance) != [] ==> Fields(instance)[0] != instance
  {
    if '/' !in instance {
      FieldsOfWord("", instance);
      assert "" + instance == instance;
    } else {
      FieldsHaveNoSlash("", instance);
    }
  }

  /** A client's read request names the digest for the server exactly if the instance has no slash. */
  lemma ReadNameRoundTripIff(d: Digest)
    requires IsValid(d) && d.size < TWO_63
    ensures ParseReadName(ReadName(d)) == Ok(d) <==> '/' !in d.instance
  {
    FieldsOfBlob(d);
    FieldsOfInstance(d.instance, "blobs" + "/" + (d.hash + "/" + ToDecimal(d.size)));
    InstanceFields(d.instance);
    ParseIntOfDecimal(d.size);
  }

  /** The same for write requests, for every upload identifier. */
  lemma WriteNameRoundTripIff(d: Digest, uuid: string)
    requires IsValid(d) && d.size < TWO_63 && IsWord(uuid)
    ensures ParseWriteName(WriteName(d, uuid)) == Ok(d) <==> '/' !in d.instance
  {
    var blob := "blobs" + "/" + (d.hash + "/" + ToDecimal(d.size));
    FieldsOfBlob(d);
    FieldsOfWordPath(uuid, blob);
    FieldsOfWordPath("uploads", uuid + "/" + blob);
    FieldsOfInstance(d.instance, "uploads" + "/" + (uuid + "/" + blob));
    InstanceFields(d.instance);
    ParseIntOfDecimal(d.size);
  }

  lemma {:induction false} FieldsAreNotEmpty(field: string, s: string)
    ensures "" !in FieldsFrom(field, s)
    decreases |s|
  {
    if s != "" {
      FieldsAreNotEmpty(if s[0] == '/' then "" else field + [s[0]], s[1..]);
    }
  }

  /** The fields of a read name: an instance that is not empty, or none; then "blobs", hash and size. */
  predicate IsReadName(fields: seq<string>, d: Digest, size: string) {
    ParseInt(size) == Some(d.size) && fields == Flush(d.instance) + ["blobs", d.hash, size]
  }

  predicate IsWriteName(fields: seq<string>, d: Digest, uuid: string, size: string) {
    ParseInt(size) == Some(d.size) && fields == Flush(d.instance) + ["uploads", uuid, "blobs", d.hash, size]
  }

  /** Exactly which names the server takes for that of a digest; all others it refuses. */
  lemma ParseReadNameIff(name: string, d: Digest)
    ensures ParseReadName(name) == Ok(d) <==> IsValid(d) && exists size :: IsReadName(Fields(name), d, size)
  {
    FieldsAreNotEmpty("", name);
    var fields := Fields(name);
    var l := |fields|;
    if ParseReadName(name) == Ok(d) {
      assert fields[0] in fields && fields == (if l == 4 then [fields[0]] else []) + fields[l - 3..];
      assert IsReadName(fields, d, fields[l - 1]);
    }
    if size: string :| IsReadName(fields, d, size) {
      assert l == |Flush(d.instance)| + 3;
    }
  }

  lemma ParseWriteNameIff(name: string, d: Digest)
    ensures ParseWriteName(name) == Ok(d) <==>
            IsValid(d) && exists uuid, size :: IsWriteName(Fields(name), d, uuid, size)
  {
    FieldsAreNotEmpty("", name);
    var fields := Fields(name);
    var l := |fields|;
    if ParseWriteName(name) == Ok(d) {
      assert fields[0] in fields && fields == (if l == 6 then [fields[0]] else []) + fields[l - 5..];
      assert IsWriteName(fields, d, fields[l - 4], fields[l - 1]);
    }
    if uuid: string, size: string :| IsWriteName(fields, d, uuid, size) {
      assert l == |Flush(d.instance)| + 5;
    }
  }
}
