/** Stable algorithm keys from scanner spellings (backend/app/engines/resource_engine.py). */
module AlgorithmNames {
  import opened Text
  import opened Wrappers

  predicate IsKeyChar(c: char) {
    'a' <= c <= 'z' || '0' <= c <= '9'
  }

  /** Lower case, letters and digits only. */
  function Compact(s: string): string {
    if s == "" then ""
    else (if IsKeyChar(LowerChar(s[0])) then [LowerChar(s[0])] else []) + Compact(s[1..])
  }

  function KeyOf(compact: string): Option<string> {
    if "rsa" <= compact then Some("rsa")
    else if compact == "x25519" || compact == "curve25519" then Some("x25519")
    else if compact == "ed25519" then Some("ed25519")
    else if "ecdh" <= compact then Some("ecdh")
    else if "ecdsa" <= compact then Some("ecdsa")
    else if "ec" <= compact then Some("ecc")
    else if compact == "" then None
    else Some(compact)
  }

  function Normalise(value: Option<string>): Option<string> {
    if value.None? || value.value == "" then None else KeyOf(Compact(value.value))
  }

  predicate IsCompact(s: string) {
    forall i :: 0 <= i < |s| ==> IsKeyChar(s[i])
  }

  lemma {:induction false} CompactIsCompact(s: string)
    ensures IsCompact(Compact(s))
  {
    if s != "" {
      CompactIsCompact(s[1..]);
    }
  }

  lemma {:induction false} CompactOfCompact(s: string)
    requires IsCompact(s)
    ensures Compact(s) == s
  {
    if s != "" {
      CompactOfCompact(s[1..]);
      assert LowerChar(s[0]) == s[0];
      assert s == [s[0]] + s[1..];
    }
  }

  lemma KeyOfFixed(key: string)
    requires key in {"rsa", "x25519", "ed25519", "ecdh", "ecdsa", "ecc"}
    ensures KeyOf(key) == Some(key) && IsCompact(key)
  {
    if key == "ecdsa" {
      assert key[3] == 's' && !("ecdh" <= key);
    } else if key == "ecc" {
      assert key[2] == 'c';
    } else if key != "rsa" {
      assert key[0] != 'r';
    }
  }

  lemma KeyOfKey(compact: string)
    requires IsCompact(compact) && KeyOf(compact).Some?
    ensures KeyOf(KeyOf(compact).value) == KeyOf(compact) && IsCompact(KeyOf(compact).value)
  {
    if KeyOf(compact).value != compact {
      KeyOfFixed(KeyOf(compact).value);
    }
  }

  /** Punctuation and case never matter, and a key is its own key. */
  lemma KeysAreStable(value: Option<string>)
    ensures Normalise(Normalise(value)) == Normalise(value)
    ensures value.Some? && Compact(value.value) != "" ==> Normalise(Some(Compact(value.value))) == Normalise(value)
  {
    if Normalise(value).Some? {
      var compact := Compact(value.value);
      CompactIsCompact(value.value);
      CompactOfCompact(compact);
      KeyOfKey(compact);
      CompactOfCompact(KeyOf(compact).value);
    }
  }
}
