/** dk_basename (cdc/include/cdc/util.h) and its twin jb_basename
    (cdc/src/cdc.c): copy the last component of a path into a caller's
    buffer of `size` bytes, or report ENAMETOOLONG.

    `Basename` is the code as written, whose `strncpy` copies at most
    `size - len` bytes of a component of `len` bytes; `BasenameFixed` is
    the `memcpy` of the whole component that the source leaves commented
    out, and it is the one proved to yield the last component. */
module Basename {
  import opened Symbols

  /** The two errno values the function returns: 0 and ENAMETOOLONG. */
  datatype Status = Success | NameTooLong

  /** strrchr(path, '/'): the index of the last slash, if any. */
  function LastSlash(path: string): (r: Option<nat>)
    ensures r.Some? ==> r.value < |path| && path[r.value] == '/'
    ensures r.Some? ==> forall k :: r.value < k < |path| ==> path[k] != '/'
    ensures r.None? <==> forall k :: 0 <= k < |path| ==> path[k] != '/'
  {
    if path == [] then None
    else if path[|path| - 1] == '/' then Some(|path| - 1)
    else LastSlash(path[..|path| - 1])
  }

  /** The last component: everything after the last slash, or the whole
      path when it has none. */
  function Component(path: string): (r: string)
    ensures '/' !in r
    ensures |r| <= |path| && r == path[|path| - |r|..]
    ensures |r| < |path| ==> path[|path| - |r| - 1] == '/'
  {
    match LastSlash(path)
    case None => path
    case Some(l) => path[l + 1..]
  }

  /** `n` NUL bytes. */
  function Zeros(n: nat): (r: seq<char>)
    ensures |r| == n && forall k :: 0 <= k < n ==> r[k] == '\0'
  {
    if n == 0 then [] else Zeros(n - 1) + ['\0']
  }

  /** How many bytes of the component the code as written copies: the
      whole path when there is no slash, else at most `size - len`. */
  function CopiedAsWritten(path: string, size: nat): nat
    requires |Component(path)| <= size
  {
    var len := |Component(path)|;
    if LastSlash(path).None? then len
    else if len <= size - len then len else size - len
  }

  /** The first `size` bytes of the buffer after a successful call as
      written: a prefix of the component, then NULs. */
  function OutAsWritten(path: string, size: nat): (r: seq<char>)
    requires |Component(path)| <= size
    ensures |r| == size
  {
    var n := CopiedAsWritten(path, size);
    Component(path)[..n] + Zeros(size - n)
  }

  /** The buffer read back as a C string: up to its first NUL. */
  function CString(s: seq<char>): (r: seq<char>)
    ensures |r| <= |s| && r == s[..|r|] && '\0' !in r
    ensures |r| < |s| ==> s[|r|] == '\0'
  {
    if s == [] || s[0] == '\0' then [] else [s[0]] + CString(s[1..])
  }

  /** A string without NUL followed by NULs reads back as itself. */
  lemma {:induction false} CStringOf(c: seq<char>, n: nat)
    requires '\0' !in c
    ensures CString(c + Zeros(n)) == c
    decreases |c|
  {
    if c == [] {
      if n > 0 {
        assert (c + Zeros(n))[0] == '\0';
      } else {
        assert c + Zeros(n) == [];
      }
    } else {
      assert (c + Zeros(n))[0] == c[0];
      assert (c + Zeros(n))[1..] == c[1..] + Zeros(n);
      CStringOf(c[1..], n);
    }
  }

  /** memset(out, 0, size) */
  method ZeroFill(out: array<char>, size: nat)
    requires size <= out.Length
    modifies out
    ensures out[..size] == Zeros(size) && out[size..] == old(out[size..])
  {
    var k := 0;
    while k < size
      invariant k <= size
      invariant out[..k] == Zeros(k) && out[size..] == old(out[size..])
      invariant forall m :: k <= m < size ==> out[m] == old(out[m])
    {
      out[k] := '\0';
      k := k + 1;
      assert out[..k] == out[..k - 1] + ['\0'];
    }
  }

  /** strrchr(path, '/'), scanning forward and remembering the last hit. */
  method FindLastSlash(path: string) returns (last: Option<nat>)
    ensures last == LastSlash(path)
  {
    last := None;
    var k := 0;
    while k < |path|
      invariant k <= |path| && last == LastSlash(path[..k])
    {
      assert path[..k + 1][..k] == path[..k];
      if path[k] == '/' {
        last := Some(k);
      }
      k := k + 1;
    }
    assert path[..k] == path;
  }

  /** Copy `n` bytes of `src` to the front of `out` (memcpy, or strncpy
      into a buffer already NUL-filled when `src` holds no NUL). */
  method CopyPrefix(out: array<char>, src: seq<char>, n: nat, size: nat)
    requires n <= |src| && n <= size <= out.Length
    requires out[..size] == Zeros(size)
    modifies out
    ensures out[..size] == src[..n] + Zeros(size - n) && out[size..] == old(out[size..])
  {
    var k := 0;
    while k < n
      invariant k <= n
      invariant out[..size] == src[..k] + Zeros(size - k) && out[size..] == old(out[size..])
    {
      out[k] := src[k];
      assert src[..k + 1] == src[..k] + [src[k]];
      assert Zeros(size - k) == ['\0'] + Zeros(size - k - 1) by {
        ZerosCons(size - k);
      }
      k := k + 1;
    }
  }

  lemma {:induction false} ZerosCons(n: nat)
    requires n > 0
    ensures Zeros(n) == ['\0'] + Zeros(n - 1)
  {
    if n > 1 {
      ZerosCons(n - 1);
    }
  }

  /** dk_basename as written. */
  method Basename(path: string, out: array<char>, size: nat) returns (status: Status)
    requires '\0' !in path
    requires size <= out.Length
    modifies out
    ensures out[size..] == old(out[size..])
    ensures status == NameTooLong <==> |Component(path)| > size
    ensures status == NameTooLong ==> out[..size] == Zeros(size)
    ensures status == Success ==> out[..size] == OutAsWritten(path, size)
  {
    ZeroFill(out, size);
    var len := |path|;
    var last := FindLastSlash(path);
    if last.None? {
      if len > size {
        return NameTooLong;
      }
      CopyPrefix(out, path, len, size);
      return Success;
    }
    var rest := path[last.value + 1..];
    len := |rest|;
    if len > size {
      return NameTooLong;
    }
    // strncpy(out, last + 1, size - len)
    var n := if len <= size - len then len else size - len;
    CopyPrefix(out, rest, n, size);
    return Success;
  }

  /** dk_basename with the commented-out `memcpy(out, last + 1, len)` in
      place of the `strncpy`. */
  method BasenameFixed(path: string, out: array<char>, size: nat) returns (status: Status)
    requires '\0' !in path
    requires size <= out.Length
    modifies out
    ensures out[size..] == old(out[size..])
    ensures status == NameTooLong <==> |Component(path)| > size
    ensures status == NameTooLong ==> out[..size] == Zeros(size)
    ensures status == Success ==> out[..size] == Component(path) + Zeros(size - |Component(path)|)
  {
    ZeroFill(out, size);
    var len := |path|;
    var last := FindLastSlash(path);
    if last.None? {
      if len > size {
        return NameTooLong;
      }
      CopyPrefix(out, path, len, size);
      assert path[..len] == path;
      return Success;
    }
    var rest := path[last.value + 1..];
    len := |rest|;
    if len > size {
      return NameTooLong;
    }
    CopyPrefix(out, rest, len, size);
    assert rest[..len] == rest;
    return Success;
  }

  /** The fixed version hands back exactly the last component when it
      succeeds, and it succeeds whenever that component fits.  Only a
      component shorter than `size` is followed by a NUL inside `out`; one
      of exactly `size` characters fills the buffer, and `CString` stops at
      its end where a C reader of `out` would run on past it. */
  lemma FixedIsComponent(path: string, size: nat)
    requires '\0' !in path && |Component(path)| <= size
    ensures CString(Component(path) + Zeros(size - |Component(path)|)) == Component(path)
    ensures |Component(path)| < size <==> '\0' in Component(path) + Zeros(size - |Component(path)|)
  {
    var c := Component(path);
    assert '\0' !in c by {
      forall k | 0 <= k < |c| ensures c[k] != '\0' {
        assert c[k] == path[|path| - |c| + k];
      }
    }
    CStringOf(c, size - |c|);
  }

  /** As written, the whole component arrives only when there is no slash
      or the component takes at most half of the buffer. */
  lemma AsWrittenWhole(path: string, size: nat)
    requires '\0' !in path && |Component(path)| <= size
    ensures OutAsWritten(path, size) == Component(path) + Zeros(size - |Component(path)|)
            <==> LastSlash(path).None? || 2 * |Component(path)| <= size
  {
    var c := Component(path);
    var n := CopiedAsWritten(path, size);
    if n < |c| {
      var out := OutAsWritten(path, size);
      assert c[n] != '\0' by {
        assert c[n] == path[|path| - |c| + n];
      }
      assert out[n] == '\0';
    } else {
      assert c[..n] == c;
    }
  }

  /** "/abc" into four bytes: only "a" arrives, where "abc" was meant. */
  lemma AsWrittenTruncates()
    ensures OutAsWritten("/abc", 4) == ['a', '\0', '\0', '\0']
    ensures Component("/abc") == "abc"
  {
    assert LastSlash("/abc") == Some(0) by {
      assert LastSlash("/abc"[..3]) == LastSlash("/ab");
      assert LastSlash("/ab"[..2]) == LastSlash("/a");
      assert LastSlash("/a"[..1]) == LastSlash("/");
    }
    assert Zeros(3) == ['\0', '\0', '\0'] by {
      assert Zeros(1) == ['\0'];
      assert Zeros(2) == ['\0', '\0'];
    }
  }
}
