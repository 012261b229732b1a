/**
 * Device keys of the collector (app.py `_safe_device_key`, `_device_key`):
 * a key names the per-device files, so it is cut down to a short run of
 * file-name-safe characters.
 */
module DeviceKey {
  import opened PyValues

  /** The longest key kept (`key[:64]`). */
  const MaxKeyLength: nat := 64

  /** The fallback key. */
  const DefaultKey: string := "default"

  /** The characters of the class `[a-zA-Z0-9._-]`. */
  predicate IsAllowed(c: char)
  {
    ('a' <= c <= 'z') || ('A' <= c <= 'Z') || ('0' <= c <= '9') || c == '.' || c == '_' || c == '-'
  }

  predicate AllAllowed(s: string) { forall k :: 0 <= k < |s| ==> IsAllowed(s[k]) }

  predicate NoneAllowed(s: string) { forall k :: 0 <= k < |s| ==> !IsAllowed(s[k]) }

  /** A key the collector can produce: non-empty, at most 64 characters, all of them allowed. */
  predicate IsSafeKey(s: string) { 0 < |s| <= MaxKeyLength && AllAllowed(s) }

  /** Drops the leading run of disallowed characters. */
  function DropDisallowed(s: string): (r: string)
    ensures |r| <= |s|
    ensures r == [] || IsAllowed(r[0])
  {
    if s != [] && !IsAllowed(s[0]) then DropDisallowed(s[1..]) else s
  }

  /** What `DropDisallowed` leaves is a suffix of its input, and all it cuts is disallowed. */
  lemma {:induction false} DropDisallowedCutsRun(s: string)
    ensures DropDisallowed(s) == s[|s| - |DropDisallowed(s)|..]
    ensures NoneAllowed(s[..|s| - |DropDisallowed(s)|])
  {
    if s != [] && !IsAllowed(s[0]) {
      var t := s[1..];
      var r := DropDisallowed(t);
      assert DropDisallowed(s) == r;
      DropDisallowedCutsRun(t);
      var n := |s| - |r|;
      assert r == t[|t| - |r|..] == s[n..];
      var tcut := t[..|t| - |r|];
      var cut := s[..n];
      forall k | 0 <= k < |cut| ensures !IsAllowed(cut[k]) {
        if k > 0 {
          assert cut[k] == tcut[k - 1];
        }
      }
    }
  }

  /**
   * `re.sub(r"[^a-zA-Z0-9._-]+", "_", s)`: scanning left to right, each
   * maximal run of disallowed characters becomes one `_`.
   */
  function Collapse(s: string): (r: string)
    ensures |r| <= |s|
    ensures AllAllowed(r)
    ensures r == [] <==> s == []
    decreases |s|
  {
    if s == [] then []
    else if IsAllowed(s[0]) then [s[0]] + Collapse(s[1..])
    else "_" + Collapse(DropDisallowed(s[1..]))
  }

  /** Substitution leaves a string of allowed characters alone. */
  lemma {:induction false} CollapseAllowed(s: string)
    requires AllAllowed(s)
    ensures Collapse(s) == s
    decreases |s|
  {
    if s != [] {
      CollapseAllowed(s[1..]);
    }
  }

  lemma {:induction false} DropDisallowedRun(d: string, rest: string)
    requires NoneAllowed(d)
    requires rest == [] || IsAllowed(rest[0])
    ensures DropDisallowed(d + rest) == rest
    decreases |d|
  {
    if d != [] {
      assert (d + rest)[1..] == d[1..] + rest;
      DropDisallowedRun(d[1..], rest);
    }
  }

  /** An allowed character in front is copied. */
  lemma {:induction false} CollapseAllowedHead(c: char, t: string)
    requires IsAllowed(c)
    ensures Collapse([c] + t) == [c] + Collapse(t)
  {
    assert ([c] + t)[1..] == t;
  }

  /** A non-empty run of disallowed characters in front becomes one `_`. */
  lemma {:induction false} CollapseRunHead(d: string, rest: string)
    requires d != [] && NoneAllowed(d)
    requires rest == [] || IsAllowed(rest[0])
    ensures Collapse(d + rest) == "_" + Collapse(rest)
  {
    var s := d + rest;
    assert s[0] == d[0] && !IsAllowed(s[0]);
    assert s[1..] == d[1..] + rest;
    DropDisallowedRun(d[1..], rest);
  }

  /**
   * The run rule: allowed characters are copied, a maximal non-empty run `d`
   * of disallowed characters becomes exactly one `_`, and the scan goes on
   * with what follows the run.
   */
  lemma {:induction false} CollapseRun(p: string, d: string, rest: string)
    requires AllAllowed(p)
    requires d != [] && NoneAllowed(d)
    requires rest == [] || IsAllowed(rest[0])
    ensures Collapse(p + d + rest) == p + "_" + Collapse(rest)
    decreases |p|
  {
    if p == [] {
      assert p + d + rest == d + rest;
      CollapseRunHead(d, rest);
    } else {
      var t := p[1..] + d + rest;
      var tail := Collapse(rest);
      assert Collapse(p + d + rest) == [p[0]] + Collapse(t) by {
        assert p + d + rest == [p[0]] + t;
        CollapseAllowedHead(p[0], t);
      }
      assert Collapse(t) == p[1..] + "_" + tail by {
        assert AllAllowed(p[1..]);
        CollapseRun(p[1..], d, rest);
      }
      assert [p[0]] + (p[1..] + "_" + tail) == p + "_" + tail;
    }
  }

  /** `key[:64]`. */
  function Truncate(s: string): (r: string)
    ensures |r| == if |s| <= MaxKeyLength then |s| else MaxKeyLength
    ensures r == s[..|r|]
  {
    if |s| <= MaxKeyLength then s else s[..MaxKeyLength]
  }

  /** `_safe_device_key(value)`. */
  function SafeDeviceKey(value: string): (r: string)
    ensures IsSafeKey(r)
    ensures Blank(value) ==> r == DefaultKey
  {
    var key := Truncate(Collapse(Strip(value)));
    if key == [] then DefaultKey else key
  }

  lemma {:induction false} AllowedNotSpace(s: string)
    requires AllAllowed(s)
    ensures s == [] || (!IsSpace(s[0]) && !IsSpace(s[|s| - 1]))
  {
  }

  /** A safe key is exactly a string that `_safe_device_key` leaves unchanged (both directions). */
  lemma {:induction false} SafeKeyFixedPoint(s: string)
    ensures SafeDeviceKey(s) == s <==> IsSafeKey(s)
  {
    if IsSafeKey(s) {
      AllowedNotSpace(s);
      StripNoSpace(s);
      CollapseAllowed(s);
    }
  }

  /** `_safe_device_key` is idempotent. */
  lemma {:induction false} SafeKeyIdempotent(value: string)
    ensures SafeDeviceKey(SafeDeviceKey(value)) == SafeDeviceKey(value)
  {
    SafeKeyFixedPoint(SafeDeviceKey(value));
  }

  /** Stripping first changes nothing: `_safe_device_key` strips the value itself. */
  lemma {:induction false} SafeKeyOfStripped(value: string)
    ensures SafeDeviceKey(Strip(value)) == SafeDeviceKey(value)
  {
    StripIdempotent(value);
  }

  /** The fallback is taken exactly for a blank value; otherwise the key is the (cut) substitution of the stripped value. */
  lemma {:induction false} SafeKeyDefaultIffBlank(value: string)
    ensures Blank(value) <==> Truncate(Collapse(Strip(value))) == []
  {
  }

  /** `str(payload.get("device") or "")`. */
  function DeviceText(payload: Record): string
  {
    PyStr(GetOr(payload, "device", Str("")))
  }

  /** `str(payload.get("ip") or "")`. */
  function IpText(payload: Record): string
  {
    PyStr(GetOr(payload, "ip", Str("")))
  }

  /**
   * `_device_key(payload)`: the device text when it is not blank, else the
   * ip text when that is not blank, else "default"; each made safe.
   */
  function DeviceKeyOf(payload: Record): (key: string)
    ensures IsSafeKey(key)
    ensures Strip(DeviceText(payload)) != [] ==> key == SafeDeviceKey(DeviceText(payload))
    ensures Strip(DeviceText(payload)) == [] && Strip(IpText(payload)) != [] ==> key == SafeDeviceKey(IpText(payload))
    ensures Strip(DeviceText(payload)) == [] && Strip(IpText(payload)) == [] ==> key == DefaultKey
  {
    var dev := Strip(DeviceText(payload));
    var ip := Strip(IpText(payload));
    SafeKeyOfStripped(DeviceText(payload));
    SafeKeyOfStripped(IpText(payload));
    if dev != [] then SafeDeviceKey(dev)
    else if ip != [] then SafeDeviceKey(ip)
    else DefaultKey
  }
}
