/** The session-backed overrides store (src/AcroForm/Storage/SessionAcroFormOverridesStorage.php):
    one session slot per sanitised document key holding the `toArray` of the overrides. */
module SessionOverridesStorage {
  import opened Wrappers
  import opened Text
  import opened Values
  import opened AcroFormOverrides

  const SessionKeyPrefix := "nowo_pdf_signable.acroform_overrides."

  /** The characters `[a-zA-Z0-9_\-.]` that a sanitised key keeps. */
  predicate IsKeyChar(c: char) {
    IsAlnum(c) || c == '_' || c == '-' || c == '.'
  }

  /** The pattern has no `u` flag, so it works on bytes: a character outside the class becomes one
      `_` per byte of its UTF-8 encoding. */
  function SanitizeChar(c: char): string {
    if IsKeyChar(c) then [c] else seq(Utf8Size(c), _ => '_')
  }

  /** `sanitizeKey`: every byte outside the class becomes `_`, so the byte length is kept and
      only key characters remain. */
  function SanitizeKey(k: string): (r: string)
    ensures |r| == Utf8Length(k)
    ensures forall i :: 0 <= i < |r| ==> IsKeyChar(r[i])
  {
    if k == [] then [] else SanitizeChar(k[0]) + SanitizeKey(k[1..])
  }

  /** A key made of key characters is its own sanitised form. */
  lemma {:induction false} SanitizeKeyOfKeyChars(k: string)
    requires forall i :: 0 <= i < |k| ==> IsKeyChar(k[i])
    ensures SanitizeKey(k) == k
  {
    if k != [] {
      SanitizeKeyOfKeyChars(k[1..]);
    }
  }

  /** Sanitising twice is sanitising once. */
  lemma SanitizeKeyIdempotent(k: string)
    ensures SanitizeKey(SanitizeKey(k)) == SanitizeKey(k)
  {
    SanitizeKeyOfKeyChars(SanitizeKey(k));
  }

  /** On an ASCII key the rewrite is character by character: the length is kept and each
      character outside the class becomes `_`. */
  lemma {:induction false} SanitizeKeyOfAscii(k: string)
    requires forall i :: 0 <= i < |k| ==> IsAscii(k[i])
    ensures |SanitizeKey(k)| == |k|
    ensures forall i :: 0 <= i < |k| ==> SanitizeKey(k)[i] == if IsKeyChar(k[i]) then k[i] else '_'
  {
    Utf8LengthOfAscii(k);
    if k != [] {
      SanitizeKeyOfAscii(k[1..]);
      assert SanitizeChar(k[0]) == [if IsKeyChar(k[0]) then k[0] else '_'];
      forall i | 1 <= i < |k|
        ensures SanitizeKey(k)[i] == SanitizeKey(k[1..])[i - 1]
      {
      }
    }
  }

  /** Distinct keys can share a slot: a slash, a space and a two-byte letter all become `_`s. */
  lemma SharedSanitisedKeys()
    ensures SanitizeKey("a/b") == SanitizeKey("a b") == "a_b"
    ensures SanitizeKey("é") == "__"
  {
    assert SanitizeChar('/') == "_" && SanitizeChar(' ') == "_";
    assert SanitizeKey("b") == "b";
    assert SanitizeKey("/b") == "_b";
    assert SanitizeKey(" b") == "_b";
  }

  /** The session slot every operation on `documentKey` uses. */
  function Slot(documentKey: string): string {
    SessionKeyPrefix + SanitizeKey(documentKey)
  }

  /** Two keys use the same slot exactly when they sanitise to the same string. */
  lemma SlotsMeet(a: string, b: string)
    ensures Slot(a) == Slot(b) <==> SanitizeKey(a) == SanitizeKey(b)
  {
    if Slot(a) == Slot(b) {
      assert SanitizeKey(a) == Slot(a)[|SessionKeyPrefix|..];
      assert SanitizeKey(b) == Slot(b)[|SessionKeyPrefix|..];
    }
  }

  /** What `get` returns for a session (`None` when there is none): the overrides read from an
      array slot, null for a missing or non-array slot. */
  function Read(session: Option<map<string, Value>>, documentKey: string, php: PhpRuntime): (r: Option<Overrides>)
    ensures r.Some? ==> Valid(r.value)
    ensures r.Some? <==> session.Some? && Slot(documentKey) in session.value && PhpIsArray(session.value[Slot(documentKey)])
  {
    if session.None? then None
    else
      var data := if Slot(documentKey) in session.value then session.value[Slot(documentKey)] else Null;
      if !PhpIsArray(data) then None else Some(FromArray(PhpEntries(data), php))
  }

  /** The storage object; `session` is `None` when the request stack has no current session. */
  class SessionStorage {
    var session: Option<map<string, Value>>

    constructor(session: Option<map<string, Value>>)
      ensures this.session == session
    {
      this.session := session;
    }

    /** `get`. */
    method Get(documentKey: string, php: PhpRuntime) returns (r: Option<Overrides>)
      ensures r == Read(session, documentKey, php)
    {
      if session.None? {
        return None;
      }
      var key := SessionKeyPrefix + SanitizeKey(documentKey);
      var data := if key in session.value then session.value[key] else Null;
      if !PhpIsArray(data) {
        return None;
      }
      r := Some(FromArray(PhpEntries(data), php));
    }

    /** `set`: the slot of the key holds `toArray` of the overrides; nothing else changes. */
    method Set(documentKey: string, overrides: Overrides)
      modifies this
      ensures old(session).None? ==> session.None?
      ensures old(session).Some? ==> session == Some(old(session).value[Slot(documentKey) := Dict(Exported(overrides))])
    {
      if session.None? {
        return;
      }
      var key := SessionKeyPrefix + SanitizeKey(documentKey);
      var data := ToArray(overrides);
      session := Some(session.value[key := Dict(data)]);
    }

    /** `remove`: the slot of the key is gone; nothing else changes. */
    method Remove(documentKey: string)
      modifies this
      ensures old(session).None? ==> session.None?
      ensures old(session).Some? ==> session == Some(old(session).value - {Slot(documentKey)})
    {
      if session.None? {
        return;
      }
      session := Some(session.value - {SessionKeyPrefix + SanitizeKey(documentKey)});
    }
  }

  /** `get` after `set` with the same key returns the overrides (as `toArray` keeps them). */
  lemma ReadAfterSet(s: map<string, Value>, documentKey: string, o: Overrides, php: PhpRuntime)
    requires Valid(o)
    ensures Read(Some(s[Slot(documentKey) := Dict(Exported(o))]), documentKey, php) == Some(Stored(o))
  {
    FromArrayOfExported(o, php);
  }

  /** `get` after `remove` with the same key returns null. */
  lemma ReadAfterRemove(s: map<string, Value>, documentKey: string, php: PhpRuntime)
    ensures Read(Some(s - {Slot(documentKey)}), documentKey, php).None?
  {
  }

  /** A write under one key is seen under another key exactly when both sanitise alike. */
  lemma ReadOtherKey(s: map<string, Value>, written: string, read: string, v: Value, php: PhpRuntime)
    ensures SanitizeKey(written) == SanitizeKey(read)
            ==> Read(Some(s[Slot(written) := v]), read, php) == Read(Some(s[Slot(read) := v]), read, php)
    ensures SanitizeKey(written) != SanitizeKey(read)
            ==> Read(Some(s[Slot(written) := v]), read, php) == Read(Some(s), read, php)
  {
    SlotsMeet(written, read);
  }

  /** The storage test's round trip through a live session. */
  method SetThenGet(storage: SessionStorage, documentKey: string, o: Overrides, php: PhpRuntime)
      returns (r: Option<Overrides>)
    requires storage.session.Some? && Valid(o)
    modifies storage
    ensures r == Some(Stored(o))
  {
    storage.Set(documentKey, o);
    ReadAfterSet(old(storage.session).value, documentKey, o, php);
    r := storage.Get(documentKey, php);
  }

  /** Without a session nothing is stored and nothing is found. */
  method WithoutSession(storage: SessionStorage, documentKey: string, o: Overrides, php: PhpRuntime)
      returns (r: Option<Overrides>)
    requires storage.session.None?
    modifies storage
    ensures r.None? && storage.session.None?
  {
    storage.Set(documentKey, o);
    storage.Remove(documentKey);
    r := storage.Get(documentKey, php);
  }
}
