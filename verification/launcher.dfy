/**
 * The vizzy launcher (src/main.c). It finds the path tag in the embedded
 * image of the hooking library, writes the log path after it with strncpy,
 * drops the image at a fixed path, and spawns the target command with an
 * environment that adds `LD_PRELOAD` for that path.
 *
 * The embedded image `g_libvizzy` is an array updated in place; the calls
 * into libc and the kernel (fopen, fwrite, posix_spawn) are oracles whose
 * answers are parameters.
 */
module Launcher {
  import opened Wrappers
  import opened Text

  /** The bytes of a C string, without its terminating NUL. */
  type CString = seq<byte>

  /** One slot of a NULL-terminated `char **` array such as `environ`. */
  type EnvEntry = Option<CString>

  /** FILENAME_TAG_SIZE: the length of the marker that precedes the path buffer. */
  const TagSize: nat := 16
  /** PATH_MAX on Linux: the size of the path buffer after the marker. */
  const PathMax: nat := 4096
  /** PRELOAD_ENV_SZ: the buffer the `LD_PRELOAD=` entry is formatted into. */
  const PreloadEnvSize: nat := 256
  /** VIZZY_SO_PATH: where the patched library is dropped. */
  const VizzySoPath: string := "/tmp/libvizzy.so"

  /** The bytes of a text whose characters all fit in a byte. */
  function Ascii(s: string): (b: CString)
    requires forall i :: 0 <= i < |s| ==> s[i] as int < 256
    ensures |b| == |s|
    ensures forall i :: 0 <= i < |s| ==> b[i] as int == s[i] as int
  {
    seq(|s|, i requires 0 <= i < |s| => (s[i] as int) as byte)
  }

  /** What `snprintf(preload_env, 256, "LD_PRELOAD=%s", VIZZY_SO_PATH)` formats. */
  function PreloadEnv(): CString
  {
    Ascii("LD_PRELOAD=" + VizzySoPath)
  }

  // ---------------------------------------------------------------------------
  // Finding the tag: memmem
  // ---------------------------------------------------------------------------

  /** The tag occurs in the image at offset i. */
  predicate TagAt(image: seq<byte>, tag: seq<byte>, i: nat)
  {
    i + |tag| <= |image| && image[i..i + |tag|] == tag
  }

  /** The earliest occurrence of the tag at or after offset `from`. */
  function FindTag(image: seq<byte>, tag: seq<byte>, from: nat): (r: Option<nat>)
    ensures r.Some? ==> from <= r.value && TagAt(image, tag, r.value)
    ensures r.Some? ==> forall i :: from <= i < r.value ==> !TagAt(image, tag, i)
    ensures r.None? ==> forall i :: from <= i ==> !TagAt(image, tag, i)
    decreases |image| - from
  {
    if from + |tag| > |image| then None
    else if TagAt(image, tag, from) then Some(from)
    else FindTag(image, tag, from + 1)
  }

  /** `memmem(image, |image|, tag, |tag|)`: the offset of the first occurrence, or NULL. */
  function FirstTag(image: seq<byte>, tag: seq<byte>): (r: Option<nat>)
  {
    FindTag(image, tag, 0)
  }

  /**
   * The embedded image keeps a PATH_MAX buffer after its first tag, as the
   * library's tagged path record provides; strncpy writes all of it.
   */
  predicate RoomAfterTag(image: seq<byte>, tag: seq<byte>)
  {
    FirstTag(image, tag).Some? ==> FirstTag(image, tag).value + |tag| + PathMax <= |image|
  }

  // ---------------------------------------------------------------------------
  // Writing the path: strncpy
  // ---------------------------------------------------------------------------

  /** The length of a C string held in a buffer: up to the first NUL, or the whole buffer. */
  function CStrLen(s: seq<byte>): (n: nat)
    ensures n <= |s|
    ensures forall k :: 0 <= k < n ==> s[k] != 0
    ensures n < |s| ==> s[n] == 0
  {
    if |s| == 0 || s[0] == 0 then 0 else 1 + CStrLen(s[1..])
  }

  /** The n bytes `strncpy(dst, src, n)` stores at dst: src up to its NUL, then NULs. */
  function Strncpy(src: CString, n: nat): (w: seq<byte>)
    ensures |w| == n
    decreases n
  {
    if n == 0 then []
    else if |src| == 0 || src[0] == 0 then seq(n, _ => 0)
    else [src[0]] + Strncpy(src[1..], n - 1)
  }

  /** The image after strncpy has written the path into the PATH_MAX bytes at `at`. */
  function Patched(image: seq<byte>, at: nat, path: CString): (p: seq<byte>)
    requires at + PathMax <= |image|
  {
    image[..at] + Strncpy(path, PathMax) + image[at + PathMax..]
  }

  /** Reading the buffer back as a C string, as the library would. */
  function ReadCString(buf: seq<byte>): (s: CString)
  {
    buf[..CStrLen(buf)]
  }

  // ---------------------------------------------------------------------------
  // The environment of the child
  // ---------------------------------------------------------------------------

  /** The array ends with a NULL somewhere, as `environ` does. */
  predicate NullTerminated(env: seq<EnvEntry>)
  {
    exists k :: 0 <= k < |env| && env[k].None?
  }

  /** The number of entries before the terminating NULL. */
  function EnvLength(env: seq<EnvEntry>): (n: nat)
    ensures n <= |env|
    ensures forall k :: 0 <= k < n ==> env[k].Some?
    ensures n < |env| ==> env[n].None?
    ensures NullTerminated(env) ==> n < |env|
  {
    if |env| == 0 || env[0].None? then 0 else 1 + EnvLength(env[1..])
  }

  /** The reply of posix_spawn: its return code and the pid it stored. */
  datatype SpawnReply = SpawnReply(rc: int, pid: int)

  /** Stands for posix_spawn(&pid, path, NULL, NULL, argv, envp). */
  type Spawner = (CString, seq<CString>, seq<EnvEntry>) -> SpawnReply

  // ---------------------------------------------------------------------------
  // The operations of src/main.c
  // ---------------------------------------------------------------------------

  /**
   * `_drop_vizzy_so(filepath)`: patch the path after the first tag, then
   * write the whole image to VIZZY_SO_PATH. `fopenOk` is whether fopen
   * succeeded, `fwriteItems` what fwrite returned; `written` is the byte
   * content handed to fwrite, if it was called.
   */
  method DropVizzySo(image: array<byte>, tag: seq<byte>, filepath: CString, fopenOk: bool, fwriteItems: int)
    returns (ok: bool, written: Option<seq<byte>>)
    requires |tag| == TagSize && RoomAfterTag(image[..], tag)
    modifies image
    ensures FirstTag(old(image[..]), tag).None? ==> image[..] == old(image[..]) && written.None?
    ensures FirstTag(old(image[..]), tag).Some? ==>
      image[..] == Patched(old(image[..]), FirstTag(old(image[..]), tag).value + TagSize, filepath)
    ensures written == if FirstTag(old(image[..]), tag).Some? && fopenOk then Some(image[..]) else None
    ensures ok <==> FirstTag(old(image[..]), tag).Some? && fopenOk && fwriteItems == 1
  {
    var ptr := FirstTag(image[..], tag);
    if ptr.None? {
      return false, None;
    }
    ghost var before := image[..];
    var at := ptr.value + TagSize;
    var window := Strncpy(filepath, PathMax);
    forall k | at <= k < at + PathMax {
      image[k] := window[k - at];
    }
    PatchedPointwise(before, image[..], at, filepath);
    if !fopenOk {
      return false, None;
    }
    written := Some(image[..]);
    ok := fwriteItems == 1;
  }

  /**
   * `_spawn_process(argv, &pid)`: format `LD_PRELOAD=/tmp/libvizzy.so`,
   * count `environ`, build the new environment (old entries, the preload
   * entry, NULL) and spawn argv[0] with it. `childEnv` is the environment
   * handed to posix_spawn, if it was called.
   */
  method SpawnProcess(argv: seq<CString>, environ: array<EnvEntry>, spawn: Spawner)
    returns (ok: bool, pid: int, childEnv: Option<seq<EnvEntry>>)
    requires |argv| >= 1 && NullTerminated(environ[..])
    ensures childEnv.None? <==> |PreloadEnv()| >= PreloadEnvSize
    ensures childEnv.Some? ==>
      var n := EnvLength(environ[..]);
      && |childEnv.value| == n + 2
      && childEnv.value[..n] == environ[..n]
      && childEnv.value[n] == Some(PreloadEnv())
      && childEnv.value[n + 1] == None
    ensures ok <==> childEnv.Some? && spawn(argv[0], argv, childEnv.value).rc == 0
    ensures childEnv.Some? ==> pid == spawn(argv[0], argv, childEnv.value).pid
  {
    var preload := PreloadEnv();
    if |preload| >= PreloadEnvSize {
      return false, 0, None;
    }

    var i := 0;
    while environ[i].Some?
      invariant 0 <= i <= EnvLength(environ[..])
      decreases EnvLength(environ[..]) - i
    {
      i := i + 1;
    }
    ghost var env := environ[..];
    assert env[i].None?;

    var newenv := new EnvEntry[i + 2];
    forall k | 0 <= k < i {
      newenv[k] := environ[k];
    }
    newenv[i] := Some(preload);
    newenv[i + 1] := None;

    assert newenv[..][..i] == env[..i];
    var reply := spawn(argv[0], argv, newenv[..]);
    ok, pid, childEnv := reply.rc == 0, reply.pid, Some(newenv[..]);
    assert environ[..] == env;
  }

  /**
   * `main(argc, argv)`: usage error when fewer than three arguments, then
   * drop the library (argv[1] is the log path), then spawn argv[2..].
   * Falling off the end of main after the child was waited for exits 0.
   */
  method Run(argv: seq<CString>, image: array<byte>, tag: seq<byte>, environ: array<EnvEntry>,
             fopenOk: bool, fwriteItems: int, spawn: Spawner)
    returns (exitCode: int, deployed: Option<seq<byte>>, childEnv: Option<seq<EnvEntry>>)
    requires |tag| == TagSize && RoomAfterTag(image[..], tag) && NullTerminated(environ[..])
    modifies image
    ensures |argv| < 3 ==> exitCode == 1 && image[..] == old(image[..]) && deployed.None? && childEnv.None?
    ensures |argv| >= 3 ==> (deployed.Some? <==> FirstTag(old(image[..]), tag).Some? && fopenOk)
    ensures |argv| >= 3 ==>
      image[..] == if FirstTag(old(image[..]), tag).Some?
                   then Patched(old(image[..]), FirstTag(old(image[..]), tag).value + TagSize, argv[1])
                   else old(image[..])
    ensures |argv| >= 3 && deployed.Some? ==>
      deployed.value == Patched(old(image[..]), FirstTag(old(image[..]), tag).value + TagSize, argv[1])
    ensures childEnv.Some? <==> |argv| >= 3 && FirstTag(old(image[..]), tag).Some? && fopenOk && fwriteItems == 1
    ensures childEnv.Some? ==>
      exitCode == (if spawn(argv[2], argv[2..], childEnv.value).rc == 0 then 0 else 1)
    ensures childEnv.None? ==> exitCode == 1
    ensures childEnv.Some? ==>
      var n := EnvLength(environ[..]);
      && |childEnv.value| == n + 2
      && childEnv.value[..n] == environ[..n]
      && childEnv.value[n] == Some(PreloadEnv())
      && childEnv.value[n + 1] == None
  {
    if |argv| < 3 {
      return 1, None, None;
    }
    var dropped;
    dropped, deployed := DropVizzySo(image, tag, argv[1], fopenOk, fwriteItems);
    if !dropped {
      return 1, deployed, None;
    }
    var spawned, pid;
    spawned, pid, childEnv := SpawnProcess(argv[2..], environ, spawn);
    PreloadFits();
    if !spawned {
      return 1, deployed, childEnv;
    }
    exitCode := 0;
  }

  // ---------------------------------------------------------------------------
  // Properties
  // ---------------------------------------------------------------------------

  /** The formatted `LD_PRELOAD=` entry is 27 bytes, so the truncation branch is never taken. */
  lemma PreloadFits()
    ensures |PreloadEnv()| == 27 < PreloadEnvSize
  {
  }

  /** strncpy copies the source up to its NUL, at most n bytes, and pads the rest with NULs. */
  lemma {:induction false} StrncpyContents(src: CString, n: nat)
    ensures var m := if CStrLen(src) < n then CStrLen(src) else n;
      && Strncpy(src, n)[..m] == src[..m]
      && forall k :: m <= k < n ==> Strncpy(src, n)[k] == 0
    decreases n
  {
    if n > 0 && |src| > 0 && src[0] != 0 {
      StrncpyContents(src[1..], n - 1);
      var m := if CStrLen(src) < n then CStrLen(src) else n;
      assert Strncpy(src, n)[..m] == [src[0]] + Strncpy(src[1..], n - 1)[..m - 1];
      assert src[..m] == [src[0]] + src[1..][..m - 1];
    }
  }

  /** The patch leaves every byte outside the PATH_MAX window as it was. */
  lemma PatchedOutside(image: seq<byte>, at: nat, path: CString)
    requires at + PathMax <= |image|
    ensures |Patched(image, at, path)| == |image|
    ensures Patched(image, at, path)[..at] == image[..at]
    ensures Patched(image, at, path)[at + PathMax..] == image[at + PathMax..]
    ensures Patched(image, at, path)[at..at + PathMax] == Strncpy(path, PathMax)
  {
    var p := Patched(image, at, path);
    assert p[..at] == image[..at];
    assert p[at..at + PathMax] == Strncpy(path, PathMax);
    assert p[at + PathMax..] == image[at + PathMax..];
  }

  /**
   * After a patch at the first tag, a fresh memmem finds the same tag at the
   * same offset: the tag and everything before it are untouched.
   */
  lemma RescanFindsSameTag(image: seq<byte>, tag: seq<byte>, path: CString)
    requires |tag| == TagSize && RoomAfterTag(image, tag) && FirstTag(image, tag).Some?
    ensures FirstTag(Patched(image, FirstTag(image, tag).value + TagSize, path), tag) == FirstTag(image, tag)
  {
    var first := FirstTag(image, tag).value;
    var at := first + TagSize;
    var p := Patched(image, at, path);
    PatchedOutside(image, at, path);
    assert p[..at] == image[..at];
    forall i | 0 <= i <= first
      ensures TagAt(p, tag, i) <==> TagAt(image, tag, i)
    {
      assert p[i..i + TagSize] == p[..at][i..i + TagSize];
      assert image[i..i + TagSize] == image[..at][i..i + TagSize];
    }
    var r := FirstTag(p, tag);
    assert TagAt(p, tag, first);
    assert r.Some? && r.value <= first;
  }

  /**
   * Reading the patched buffer back as a C string gives the log path when it
   * is shorter than PATH_MAX; a longer path is cut to PATH_MAX bytes and
   * left without a terminating NUL inside the buffer.
   */
  lemma PatchReadsBack(image: seq<byte>, at: nat, path: CString)
    requires at + PathMax <= |image|
    ensures var window := Patched(image, at, path)[at..at + PathMax];
      && (CStrLen(path) < PathMax ==> ReadCString(window) == path[..CStrLen(path)])
      && (CStrLen(path) >= PathMax ==> CStrLen(window) == PathMax && window == path[..PathMax])
  {
    PatchedOutside(image, at, path);
    var window := Strncpy(path, PathMax);
    StrncpyContents(path, PathMax);
    var n := CStrLen(path);
    if n < PathMax {
      assert window[n] == 0;
      assert forall k :: 0 <= k < n ==> window[k] == path[k] by {
        forall k | 0 <= k < n ensures window[k] == path[k] {
          assert window[..n][k] == path[..n][k];
        }
      }
      CStrLenIs(window, n);
    } else {
      assert window == window[..PathMax] == path[..PathMax];
      assert forall k :: 0 <= k < PathMax ==> window[k] != 0 by {
        forall k | 0 <= k < PathMax ensures window[k] != 0 {
          assert window[k] == path[k];
        }
      }
      CStrLenIs(window, PathMax);
    }
  }

  /** A buffer that holds the strncpy window at `at` and the old bytes elsewhere is the patched image. */
  lemma PatchedPointwise(before: seq<byte>, after: seq<byte>, at: nat, path: CString)
    requires at + PathMax <= |before| == |after|
    requires forall k :: 0 <= k < |after| && !(at <= k < at + PathMax) ==> after[k] == before[k]
    requires forall k :: at <= k < at + PathMax ==> after[k] == Strncpy(path, PathMax)[k - at]
    ensures after == Patched(before, at, path)
  {
    var p := Patched(before, at, path);
    forall k | 0 <= k < |after| ensures after[k] == p[k] {
      if k < at {
        assert p[k] == before[..at][k];
      } else if k < at + PathMax {
        assert p[k] == Strncpy(path, PathMax)[k - at];
      } else {
        assert p[k] == before[at + PathMax..][k - at - PathMax];
      }
    }
  }

  /** A buffer whose first NUL is at n has C string length n. */
  lemma {:induction false} CStrLenIs(s: seq<byte>, n: nat)
    requires n <= |s|
    requires forall k :: 0 <= k < n ==> s[k] != 0
    requires n < |s| ==> s[n] == 0
    ensures CStrLen(s) == n
  {
  }

  /** An occurrence of the tag past the patched window survives the patch. */
  lemma LaterTagSurvives(image: seq<byte>, tag: seq<byte>, at: nat, path: CString, j: nat)
    requires at + PathMax <= |image| && at + PathMax <= j && TagAt(image, tag, j)
    ensures TagAt(Patched(image, at, path), tag, j)
  {
    var p := Patched(image, at, path);
    PatchedOutside(image, at, path);
    assert p[j..j + |tag|] == p[at + PathMax..][j - at - PathMax..j - at - PathMax + |tag|];
    assert image[j..j + |tag|] == image[at + PathMax..][j - at - PathMax..j - at - PathMax + |tag|];
  }
}
