/** Random mailbox names and address composition, shared by the browser
    client (`randStr`) and the handlers (`randLocal`, the login loop). */
module Names {

  /** The 36 characters every generated name is drawn from. */
  const Alphabet: string := "abcdefghijklmnopqrstuvwxyz0123456789"

  /** Draws of `Math.floor(Math.random() * chars.length)`: each one is an
      index into the alphabet. */
  predicate ValidDraws(draws: seq<nat>) {
    forall i :: 0 <= i < |draws| ==> draws[i] < |Alphabet|
  }

  predicate InAlphabet(s: string) {
    forall i :: 0 <= i < |s| ==> s[i] in Alphabet
  }

  /** The word a sequence of draws spells, one alphabet character per draw. */
  function Spell(draws: seq<nat>): string
    requires ValidDraws(draws)
  {
    seq(|draws|, i requires 0 <= i < |draws| => Alphabet[draws[i]])
  }

  /** The character-by-character accumulation loop of `randStr(len)`
      (and of `randLocal(len)`): the i-th draw picks the i-th character. */
  method RandomString(len: nat, draws: seq<nat>) returns (s: string)
    requires len <= |draws| && ValidDraws(draws)
    ensures |s| == len && InAlphabet(s)
    ensures forall i :: 0 <= i < len ==> s[i] == Alphabet[draws[i]]
    ensures s == Spell(draws[..len])
  {
    s := "";
    var i := 0;
    while i < len
      invariant 0 <= i <= len
      invariant |s| == i && InAlphabet(s)
      invariant forall j :: 0 <= j < i ==> s[j] == Alphabet[draws[j]]
    {
      s := s + [Alphabet[draws[i]]];
      i := i + 1;
    }
  }

  /** `${local}@${domain}` */
  function Address(local: string, domain: string): string {
    local + "@" + domain
  }

  /** Splits an address at its first '@' into local part and domain; an
      address without '@' is all local part. */
  function SplitAddress(a: string): (parts: (string, string))
    ensures '@' !in parts.0
  {
    if |a| == 0 then ("", "")
    else if a[0] == '@' then ("", a[1..])
    else
      var rest := SplitAddress(a[1..]);
      ([a[0]] + rest.0, rest.1)
  }

  /** Composing an address from a local part without '@' and splitting it
      again gives back both parts. */
  lemma {:induction false} SplitAddressInvertsAddress(local: string, domain: string)
    requires '@' !in local
    ensures SplitAddress(Address(local, domain)) == (local, domain)
  {
    if local != [] {
      var a := Address(local, domain);
      assert a[0] == local[0] && local[0] != '@';
      assert a[1..] == Address(local[1..], domain);
      SplitAddressInvertsAddress(local[1..], domain);
      assert [local[0]] + local[1..] == local;
    }
  }

  /** No generated name contains '@', so the address built from it always
      splits back into that name and the domain. */
  lemma GeneratedNameSplits(name: string, domain: string)
    requires InAlphabet(name)
    ensures SplitAddress(Address(name, domain)) == (name, domain)
  {
    SplitAddressInvertsAddress(name, domain);
  }
}
