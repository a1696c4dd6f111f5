/** Connection settings and path construction used by the SFTP deploy task:
    port defaulting, `sftp://` stripping, WordPress's trailing-slash helper and
    the local/remote paths of one file. */
module Settings {
  import opened Wrappers

  /** The port phpseclib is given when the configured one is falsy. */
  const DefaultSftpPort: int := 22

  /** The scheme prefix that is removed from the configured host. */
  const Scheme: string := "sftp://"

  /** The SFTP options read by `get_sftp` and `upload_static_files`. */
  datatype Config = Config(host: string, user: string, pass: string, port: Option<int>, folder: string)

  /** PHP truthiness of a configured port: unset and 0 are falsy. */
  predicate PortIsSet(port: Option<int>)
  {
    port.Some? && port.value != 0
  }

  /** `if ( ! $port ) { $port = 22; }`: a falsy port becomes 22, any other one
      passes through unchanged. */
  function DefaultPort(port: Option<int>): (r: int)
    ensures r != 0
    ensures PortIsSet(port) ==> r == port.value
    ensures !PortIsSet(port) ==> r == DefaultSftpPort
  {
    if PortIsSet(port) then port.value else DefaultSftpPort
  }

  /** WordPress `absint`: the magnitude of an integer. */
  function Absint(n: int): (r: nat)
    ensures r == n || r == -n
  {
    if n < 0 then -n else n
  }

  /** `p` occurs in `s` starting at position `i`. */
  predicate OccursAt(s: string, p: string, i: nat)
  {
    i + |p| <= |s| && s[i..i + |p|] == p
  }

  ghost predicate Occurs(s: string, p: string)
  {
    exists i: nat :: OccursAt(s, p, i)
  }

  /** PHP `str_replace(p, '', s)`: one left-to-right scan that removes every
      non-overlapping occurrence of `p`. */
  function RemoveAll(s: string, p: string): (r: string)
    requires p != []
    ensures |r| <= |s|
    ensures p <= s ==> |r| <= |s| - |p|
    decreases |s|
  {
    if |s| < |p| then s
    else if p <= s then RemoveAll(s[|p|..], p)
    else [s[0]] + RemoveAll(s[1..], p)
  }

  /** A string in which `p` does not occur is left as it is. */
  lemma {:induction false} RemoveAllAbsent(s: string, p: string)
    requires p != [] && !Occurs(s, p)
    ensures RemoveAll(s, p) == s
    decreases |s|
  {
    if |s| >= |p| {
      assert !OccursAt(s, p, 0);
      assert !(p <= s);
      forall i: nat | OccursAt(s[1..], p, i) ensures false {
        assert s[i + 1..i + 1 + |p|] == s[1..][i..i + |p|];
        assert OccursAt(s, p, i + 1);
      }
      RemoveAllAbsent(s[1..], p);
      assert [s[0]] + s[1..] == s;
    }
  }

  /** An occurrence in the tail is one in the whole string, one place on. */
  lemma OccursInTail(s: string, p: string, i: nat)
    requires s != []
    ensures OccursAt(s[1..], p, i) <==> OccursAt(s, p, i + 1)
  {
    if i + 1 + |p| <= |s| {
      assert s[1..][i..i + |p|] == s[i + 1..i + 1 + |p|];
    }
  }

  /** Up to the first occurrence of `p`, the scan keeps every character; it
      then drops that occurrence and goes on with what follows it. With
      `RemoveAllAbsent` this fixes the result for every string: split it at
      its first occurrence, again and again, until none is left. */
  lemma {:induction false} RemoveAllFirst(a: string, b: string, p: string)
    requires p != []
    requires forall i: nat :: i < |a| ==> !OccursAt(a + p + b, p, i)
    ensures RemoveAll(a + p + b, p) == a + RemoveAll(b, p)
    decreases |a|
  {
    var s := a + p + b;
    if a == [] {
      assert s == p + b && s[|p|..] == b;
      RemoveAllDrop(s, p);
    } else {
      var t := a[1..] + p + b;
      NoEarlyOccurrenceInTail(a, b, p);
      RemoveAllFirst(a[1..], b, p);
      assert RemoveAll(s, p) == [a[0]] + RemoveAll(t, p);
      assert [a[0]] + (a[1..] + RemoveAll(b, p)) == a + RemoveAll(b, p);
    }
  }

  /** The scan's first step past a non-occurrence, and the premise of
      `RemoveAllFirst` for what follows it. */
  lemma NoEarlyOccurrenceInTail(a: string, b: string, p: string)
    requires p != [] && a != []
    requires forall i: nat :: i < |a| ==> !OccursAt(a + p + b, p, i)
    ensures (a + p + b)[1..] == a[1..] + p + b
    ensures RemoveAll(a + p + b, p) == [a[0]] + RemoveAll(a[1..] + p + b, p)
    ensures forall i: nat :: i < |a[1..]| ==> !OccursAt(a[1..] + p + b, p, i)
  {
    var s := a + p + b;
    var t := a[1..] + p + b;
    assert s[1..] == t && s[0] == a[0];
    assert !OccursAt(s, p, 0);
    RemoveAllSkip(s, p);
    forall i: nat | i < |a[1..]| ensures !OccursAt(t, p, i) {
      OccursInTail(s, p, i);
    }
  }

  /** Lines 109-111: only a host that begins with `sftp://` is rewritten, and
      then every occurrence of `sftp://` in it is removed. */
  function StripScheme(host: string): (r: string)
    ensures !(Scheme <= host) ==> r == host
    ensures Scheme <= host ==> |r| <= |host| - |Scheme|
    ensures Scheme <= host ==> r == RemoveAll(host[|Scheme|..], Scheme)
  {
    if Scheme <= host then RemoveAll(host, Scheme) else host
  }

  /** A host carrying the scheme once, at its head, loses exactly that prefix. */
  lemma StripSchemeLeading(h: string)
    requires !Occurs(h, Scheme)
    ensures StripScheme(Scheme + h) == h
  {
    var s := Scheme + h;
    assert Scheme <= s;
    assert s[|Scheme|..] == h;
    RemoveAllAbsent(h, Scheme);
  }

  /** An occurrence after the head is removed too, not only the prefix. */
  lemma StripSchemeRemovesInner()
    ensures StripScheme("sftp://sftp://h") == "h"
  {
    var s: string := "sftp://sftp://h";
    assert Scheme <= s;
    assert s[7..] == "sftp://h";
    assert Scheme <= s[7..];
    assert s[7..][7..] == "h";
    assert RemoveAll("h", Scheme) == "h";
    assert RemoveAll(s[7..], Scheme) == "h";
  }

  /** One step of the scan where `p` does not start the string, because the
      two differ at position `j`. */
  lemma RemoveAllKeep(s: string, p: string, j: nat)
    requires j < |p| <= |s| && s[j] != p[j]
    ensures RemoveAll(s, p) == [s[0]] + RemoveAll(s[1..], p)
  {
  }

  /** One step of the scan where `p` does not start the string. */
  lemma RemoveAllSkip(s: string, p: string)
    requires p != [] && |p| <= |s| && !OccursAt(s, p, 0)
    ensures RemoveAll(s, p) == [s[0]] + RemoveAll(s[1..], p)
  {
    assert !(p <= s);
  }

  /** One step of the scan where `p` starts the string. */
  lemma RemoveAllDrop(s: string, p: string)
    requires p != [] && p <= s
    ensures RemoveAll(s, p) == RemoveAll(s[|p|..], p)
  {
  }

  lemma SinglePassTail()
    ensures RemoveAll("sftp://tp://", Scheme) == "tp://"
  {
    var t: string := "sftp://tp://";
    assert t[..7] == Scheme && t[7..] == "tp://";
    RemoveAllDrop(t, Scheme);
  }

  lemma SinglePassMiddle()
    ensures RemoveAll("fsftp://tp://", Scheme) == "ftp://"
  {
    var t: string := "fsftp://tp://";
    assert t[1..] == "sftp://tp://";
    RemoveAllKeep(t, Scheme, 0);
    SinglePassTail();
    assert [t[0]] + "tp://" == "ftp://";
  }

  lemma SinglePassHead()
    ensures RemoveAll("sfsftp://tp://", Scheme) == "sftp://"
  {
    var t: string := "sfsftp://tp://";
    assert t[1..] == "fsftp://tp://";
    RemoveAllKeep(t, Scheme, 2);
    SinglePassMiddle();
    assert [t[0]] + "ftp://" == "sftp://";
  }

  /** One pass only: removing an inner occurrence can join the pieces around it
      into a new `sftp://`, which stays in the result. */
  lemma StripSchemeSinglePass()
    ensures StripScheme("sftp://sfsftp://tp://") == "sftp://"
  {
    var s: string := "sftp://sfsftp://tp://";
    assert s[..7] == Scheme && s[7..] == "sfsftp://tp://";
    RemoveAllDrop(s, Scheme);
    SinglePassHead();
  }

  predicate IsSlash(c: char)
  {
    c == '/' || c == '\\'
  }

  /** WordPress `untrailingslashit`: `rtrim` of every trailing `/` and `\`. */
  function Untrailing(s: string): (r: string)
    ensures r <= s
    ensures r == [] || !IsSlash(r[|r| - 1])
    ensures forall i :: |r| <= i < |s| ==> IsSlash(s[i])
    decreases |s|
  {
    if s != [] && IsSlash(s[|s| - 1]) then Untrailing(s[..|s| - 1]) else s
  }

  /** WordPress `trailingslashit`: exactly one `/` at the end. */
  function TrailingSlashIt(s: string): (r: string)
    ensures r != [] && r[|r| - 1] == '/'
    ensures r[..|r| - 1] <= s
    ensures |r| == 1 || !IsSlash(r[|r| - 2])
    ensures forall i :: |r| - 1 <= i < |s| ==> IsSlash(s[i])
  {
    Untrailing(s) + "/"
  }

  lemma TrailingSlashItIdempotent(s: string)
    ensures TrailingSlashIt(TrailingSlashIt(s)) == TrailingSlashIt(s)
  {
  }

  /** PHP truthiness of a string option: "" and "0" are falsy. */
  predicate Truthy(s: string)
  {
    s != "" && s != "0"
  }

  /** Lines 155-159: the configured folder, with a trailing slash when it is
      truthy and as configured otherwise. */
  function RemoteFolder(folder: string): (r: string)
    ensures Truthy(folder) ==> r != [] && r[|r| - 1] == '/'
    ensures !Truthy(folder) ==> r == folder
  {
    if Truthy(folder) then TrailingSlashIt(folder) else folder
  }

  /** Line 169: where a file lands on the server. */
  function RemotePath(folder: string, path: string): string
  {
    folder + path
  }

  /** Line 168: where a file is read from locally. */
  function LocalPath(tempDir: string, path: string): string
  {
    tempDir + path
  }

  /** A truthy folder and a file path are joined by exactly one `/`,
      whatever slashes the configured folder ends with. */
  lemma RemotePathJoin(folder: string, path: string)
    requires Truthy(folder)
    ensures var base := Untrailing(folder);
            RemotePath(RemoteFolder(folder), path) == base + "/" + path
            && (base == [] || !IsSlash(base[|base| - 1]))
  {
  }
}
