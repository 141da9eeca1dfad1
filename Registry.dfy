/** The part of the Windows registry the event collector's configuration
    lives in, as an immutable tree. A key holds typed values, the names its
    subkeys enumerate in, and the subkeys that can still be opened: a name
    listed in `subkeyNames` without an entry in `subkeys` is a subkey that
    vanished between `GetSubKeyNames` and `OpenSubKey`. */
module Registry {
  import opened Wrappers

  /** The data of a `REG_DWORD`, returned by the registry API as an `int`. */
  type Int32 = x: int | -0x8000_0000 <= x < 0x8000_0000

  /** The data of a `REG_QWORD`, returned by the registry API as a `long`. */
  type Int64 = x: int | -0x8000_0000_0000_0000 <= x < 0x8000_0000_0000_0000

  /** A registry value tagged with its kind; other kinds are left out. */
  datatype Value = DWord(dword: Int32) | QWord(qword: Int64) | Str(text: string)

  datatype Key = Key(values: map<string, Value>, subkeyNames: seq<string>, subkeys: map<string, Key>)

  /** `RegistryKey.SubKeyCount`. */
  function SubKeyCount(k: Key): nat {
    |k.subkeyNames|
  }

  /** `OpenSubKey` of one name: `None` for a null key. */
  function SubKey(k: Key, name: string): Option<Key> {
    if name in k.subkeys then Some(k.subkeys[name]) else None
  }

  /** `OpenSubKey` of a backslash-separated path, one component at a time. */
  function OpenPath(k: Key, path: seq<string>): (r: Option<Key>)
    ensures |path| == 0 ==> r == Some(k)
  {
    if |path| == 0 then Some(k)
    else
      match SubKey(k, path[0])
      case None => None
      case Some(child) => OpenPath(child, path[1..])
  }

  /** Opening `a + b` is opening `a` and then `b` below it. */
  lemma {:induction false} OpenPathAppend(k: Key, a: seq<string>, b: seq<string>)
    ensures OpenPath(k, a + b) == if OpenPath(k, a).Some? then OpenPath(OpenPath(k, a).value, b) else None
  {
    if |a| == 0 {
      assert a + b == b;
    } else {
      assert (a + b)[0] == a[0] && (a + b)[1..] == a[1..] + b;
      if a[0] in k.subkeys {
        OpenPathAppend(k.subkeys[a[0]], a[1..], b);
      }
    }
  }

  /** A two-component path opens exactly when both keys exist. */
  lemma OpenPathTwo(k: Key, a: string, b: string)
    ensures OpenPath(k, [a, b]).Some? <==> a in k.subkeys && b in k.subkeys[a].subkeys
    ensures OpenPath(k, [a, b]).Some? ==> OpenPath(k, [a, b]).value == k.subkeys[a].subkeys[b]
  {
    assert [a, b][1..] == [b];
    assert [b][1..] == [];
  }

  /** `regReadDWORDValue`: the data of a present `REG_DWORD` value, else
      false with 0. */
  function ReadDWord(k: Key, name: string): (r: (bool, Int32))
    ensures r.0 <==> name in k.values && k.values[name].DWord?
    ensures r.0 ==> r.1 == k.values[name].dword
    ensures !r.0 ==> r.1 == 0
  {
    if name !in k.values then (false, 0)
    else
      match k.values[name]
      case DWord(d) => (true, d)
      case _ => (false, 0)
  }

  /** `regReadQWORDValue`: the data of a present `REG_QWORD` value, else
      false with 0. */
  function ReadQWord(k: Key, name: string): (r: (bool, Int64))
    ensures r.0 <==> name in k.values && k.values[name].QWord?
    ensures r.0 ==> r.1 == k.values[name].qword
    ensures !r.0 ==> r.1 == 0
  {
    if name !in k.values then (false, 0)
    else
      match k.values[name]
      case QWord(q) => (true, q)
      case _ => (false, 0)
  }

  /** `regReadStringValue`: the data of a present `REG_SZ` value, else
      false with the empty string. */
  function ReadString(k: Key, name: string): (r: (bool, string))
    ensures r.0 <==> name in k.values && k.values[name].Str?
    ensures r.0 ==> r.1 == k.values[name].text
    ensures !r.0 ==> r.1 == ""
  {
    if name !in k.values then (false, "")
    else
      match k.values[name]
      case Str(s) => (true, s)
      case _ => (false, "")
  }

  /** A value has one kind: at most one typed read of a name succeeds, and
      exactly one when the value is present. */
  lemma ReadsExclusive(k: Key, name: string)
    ensures !(ReadDWord(k, name).0 && ReadQWord(k, name).0)
    ensures !(ReadDWord(k, name).0 && ReadString(k, name).0)
    ensures !(ReadQWord(k, name).0 && ReadString(k, name).0)
    ensures name in k.values <==> ReadDWord(k, name).0 || ReadQWord(k, name).0 || ReadString(k, name).0
  {
  }
}
