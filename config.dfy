/**
 * Core/config.py: dotted-path lookup in the settings document. Reading and
 * caching the settings file is I/O; the document is a parameter here (the
 * source uses `{}` when the file is missing or unreadable).
 */
module Config {
  import opened Wrappers
  import opened Dicts
  import opened Json
  import Text

  /** The value reached by following `keys` through nested objects, or None
      as soon as a key is missing or an intermediate value is not an object. */
  function Walk(cur: Json, keys: seq<string>): Option<Json>
    decreases |keys|
  {
    if |keys| == 0 then Some(cur)
    else if cur.JObj? && keys[0] in Keys(cur.fields) then Walk(Get(cur.fields, keys[0]).value, keys[1..])
    else None
  }

  /** `cfg_get(path, default)`: walk the dot-separated keys of `path`. */
  method CfgGet(data: Json, path: string, default: Json) returns (r: Json)
    ensures r == Walk(data, Text.Split(path, '.')).GetOr(default)
  {
    var keys := Text.Split(path, '.');
    var cur := data;
    for i := 0 to |keys|
      invariant Walk(data, keys) == Walk(cur, keys[i..])
    {
      assert keys[i..][1..] == keys[i + 1..];
      if cur.JObj? && keys[i] in Keys(cur.fields) {
        cur := Get(cur.fields, keys[i]).value;
      } else {
        return default;
      }
    }
    assert keys[|keys|..] == [];
    return cur;
  }

  /** Walking a concatenated path is walking the first part, then the rest
      from wherever the first part ended. */
  lemma {:induction false} WalkAppend(cur: Json, a: seq<string>, b: seq<string>)
    ensures Walk(cur, a + b) == match Walk(cur, a) case Some(v) => Walk(v, b) case None => None
    decreases |a|
  {
    if |a| > 0 {
      assert (a + b)[0] == a[0] && (a + b)[1..] == a[1..] + b;
      if cur.JObj? && Get(cur.fields, a[0]).Some? {
        WalkAppend(Get(cur.fields, a[0]).value, a[1..], b);
      }
    } else {
      assert a + b == b;
    }
  }

  lemma {:induction false} SplitNoSep(s: string, sep: char)
    requires sep !in s
    ensures Text.Split(s, sep) == [s]
  {
  }

  lemma {:induction false} SplitTwo(a: string, b: string)
    requires '.' !in a && '.' !in b
    ensures Text.Split(a + "." + b, '.') == [a, b]
  {
    var s := a + "." + b;
    assert s[|a|] == '.';
    assert s[..|a|] == a;
    var k := Text.IndexOf(s, '.');
    assert k == |a|;
    assert s[k + 1..] == b;
  }

  /** `cfg_get("a.b", d)` is `cfg_get("b", d)` evaluated in the object stored
      under "a", and `d` when "a" is missing or holds no object. */
  lemma DottedPath(data: Json, a: string, b: string, default: Json)
    requires '.' !in a && '.' !in b
    ensures var at := Walk(data, [a]);
      Walk(data, Text.Split(a + "." + b, '.')).GetOr(default) ==
        if at.Some? && at.value.JObj? then GetOr(at.value.fields, b, default) else default
  {
    SplitTwo(a, b);
    WalkAppend(data, [a], [b]);
    assert [a] + [b] == [a, b];
  }

  /** A single-key path returns `data[key]` whenever the key is present. */
  lemma SingleKey(fields: Dict<Json>, key: string, default: Json)
    requires '.' !in key && key in Keys(fields)
    ensures Walk(JObj(fields), Text.Split(key, '.')).GetOr(default) == Get(fields, key).value
  {
    SplitNoSep(key, '.');
  }

  /** A document that is not an object yields the default for every path. */
  lemma NotAnObject(data: Json, path: string, default: Json)
    requires !data.JObj?
    ensures Walk(data, Text.Split(path, '.')).GetOr(default) == default
  {
  }
}
