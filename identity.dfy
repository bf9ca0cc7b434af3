/** The identity key of a stored cookie (class CID): the caller's province,
    tax number and ip, and the md5 fingerprint that is the table's primary key. */
module Identity {
  import opened Common

  predicate IsHexDigit(ch: char) {
    '0' <= ch <= '9' || 'a' <= ch <= 'f'
  }

  /** What hashlib's hexdigest returns for md5: 32 lower-case hex digits. */
  type Digest = s: string | |s| == 32 && forall i :: 0 <= i < |s| ==> IsHexDigit(s[i])
    witness "00000000000000000000000000000000"

  /** The md5 function itself is outside the model: every operation that
      fingerprints takes it as this parameter. */
  type Hash = string -> Digest

  datatype Cid = Cid(province: string, tax: string, ip: string, md5: Digest)

  /** The invariant the constructor establishes: a key bears a province or a tax number. */
  predicate WellFormed(c: Cid) {
    c.province != "" || c.tax != ""
  }

  /** "".join(...) over the fields handed to the fingerprint. */
  function Join(parts: seq<string>): string {
    if parts == [] then "" else parts[0] + Join(parts[1..])
  }

  lemma {:induction false} JoinAppend(a: seq<string>, b: seq<string>)
    ensures Join(a + b) == Join(a) + Join(b)
  {
    if a == [] {
      assert a + b == b;
    } else {
      assert (a + b)[1..] == a[1..] + b;
      JoinAppend(a[1..], b);
    }
  }

  /** CID.__md5_deal: the digest of the fields concatenated in order. With
      no field it is the digest of the empty string; with one field, the
      digest of that field as it is. */
  function Md5Deal(parts: seq<string>, hash: Hash): (d: Digest)
    ensures parts == [] ==> d == hash("")
    ensures |parts| == 1 ==> d == hash(parts[0])
  {
    assert |parts| == 1 ==> parts[1..] == [] && Join(parts) == parts[0] + Join([]) == parts[0];
    hash(Join(parts))
  }

  /** The fingerprint sees only the concatenation, so the split between
      fields is lost: ("ab", "c") and ("a", "bc") share a digest. */
  lemma {:induction false} Md5DealSplit(a: seq<string>, b: seq<string>, hash: Hash)
    ensures Md5Deal(a + b, hash) == hash(Join(a) + Join(b))
  {
    JoinAppend(a, b);
  }

  /** CID.__init__: refuses a key with neither province nor tax; the
      fingerprint is taken over the tax number alone. */
  function NewCid(province: string, tax: string, ip: string, hash: Hash): (r: Result<Cid, Error>)
    ensures r.Err? <==> province == "" && tax == ""
    ensures r.Err? ==> r.error == InvalidArgument
    ensures r.Ok? ==> WellFormed(r.value)
    ensures r.Ok? ==> r.value.province == province && r.value.tax == tax && r.value.ip == ip
    ensures r.Ok? ==> r.value.md5 == hash(tax)
  {
    if province == "" && tax == "" then
      Err(InvalidArgument)
    else
      Ok(Cid(province, tax, ip, Md5Deal([tax], hash)))
  }

  /** Two keys with the same tax number have the same fingerprint, whatever
      their province or ip. */
  lemma FingerprintIgnoresProvinceAndIp(p1: string, ip1: string, p2: string, ip2: string, tax: string, hash: Hash)
    requires NewCid(p1, tax, ip1, hash).Ok? && NewCid(p2, tax, ip2, hash).Ok?
    ensures NewCid(p1, tax, ip1, hash).value.md5 == NewCid(p2, tax, ip2, hash).value.md5
  {
  }

  /** CID.get_dict: exactly the four keys province, tax, md5 and ip. */
  function GetDict(c: Cid): (d: map<string, string>)
    ensures d.Keys == {"province", "tax", "md5", "ip"}
    ensures d["province"] == c.province && d["tax"] == c.tax
    ensures d["md5"] == c.md5 && d["ip"] == c.ip
  {
    map["province" := c.province, "tax" := c.tax, "md5" := c.md5, "ip" := c.ip]
  }
}
