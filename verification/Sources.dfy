/**
 Snapshot sources and their text form `user@host:path`.

 `filepath.Abs` followed by `filepath.Clean` is a parameter. The one fact used
 about it: its result is never empty and never just the part of its argument
 after a colon, because the path element that ends in the colon is kept.
 */
module Sources {
  import opened Wrappers

  datatype SourceInfo = SourceInfo(host: string, userName: string, path: string)

  const GLOBAL := SourceInfo("", "", "")

  /** strings.Index for one character. */
  function IndexOf(s: string, c: char): (i: int)
    ensures -1 <= i < |s|
    ensures i >= 0 ==> s[i] == c
    ensures forall k :: 0 <= k < (if i < 0 then |s| else i) ==> s[k] != c
  {
    if s == [] then -1
    else if s[0] == c then 0
    else
      var i := IndexOf(s[1..], c);
      assert forall k :: 1 <= k < |s| ==> s[k] == s[1..][k - 1];
      if i < 0 then -1 else i + 1
  }

  function Print(si: SourceInfo): string {
    if si == GLOBAL then "(global)"
    else if si.path == "" then si.userName + "@" + si.host
    else si.userName + "@" + si.host + ":" + si.path
  }

  /** ParseSourceInfo. `abs` is filepath.Clean after filepath.Abs. */
  function Parse(text: string, hostname: string, username: string, abs: string -> Result<string>): Result<SourceInfo> {
    if text == "(global)" then Ok(GLOBAL)
    else
      var p1 := IndexOf(text, '@');
      var p2 := IndexOf(text, ':');
      if p1 > 0 && p2 > 0 && p1 < p2 then
        Ok(SourceInfo(text[p1 + 1..p2], text[..p1], text[p2 + 1..]))
      else if p1 >= 0 && p2 < 0 then
        if p1 + 1 < |text| then Ok(SourceInfo(text[p1 + 1..], text[..p1], "")) else Err
      else
        match abs(text)
        case Ok(absPath) => Ok(SourceInfo(hostname, username, absPath))
        case Err => Err
  }

  predicate Plain(s: string, c: char) { forall i :: 0 <= i < |s| ==> s[i] != c }

  /** The targets whose text form can be read back. */
  predicate Printable(si: SourceInfo) {
    || si == GLOBAL
    || (&& Plain(si.userName, '@') && Plain(si.userName, ':') && Plain(si.host, ':')
        && (if si.path == "" then si.host != "" else si.userName != ""))
  }

  ghost predicate Absolute(abs: string -> Result<string>) {
    && (forall a: string, b: string :: abs(a + ":" + b) != Ok(b))
    && (forall a: string :: abs(a) != Ok(""))
  }

  lemma IndexIs(s: string, c: char, i: nat)
    requires i < |s| && s[i] == c && Plain(s[..i], c)
    ensures IndexOf(s, c) == i
  {
    assert forall k :: 0 <= k < i ==> s[k] == s[..i][k];
  }

  lemma IndexNone(s: string, c: char)
    requires Plain(s, c)
    ensures IndexOf(s, c) == -1
  {
  }

  lemma ParseUndoesPrint(si: SourceInfo, hostname: string, username: string, abs: string -> Result<string>)
    requires Printable(si)
    ensures Parse(Print(si), hostname, username, abs) == Ok(si)
  {
    if si != GLOBAL {
      var text := Print(si);
      var p1 := |si.userName|;
      assert text[..p1] == si.userName && text[p1] == '@';
      IndexIs(text, '@', p1);
      assert "(global)"[0] == '(';
      assert text != "(global)" by { assert Plain("(global)", '@'); }
      if si.path == "" {
        assert text[p1 + 1..] == si.host;
        IndexNone(text, ':');
      } else {
        var p2 := p1 + 1 + |si.host|;
        assert text[..p2] == si.userName + "@" + si.host && text[p2] == ':';
        IndexIs(text, ':', p2);
        assert text[p1 + 1..p2] == si.host && text[p2 + 1..] == si.path;
      }
    }
  }

  /**
   Text that is neither user@host:path nor user@host is a path of the client's own host and user: text without
   "@", or with a ":" after a leading "@" or before any "@".
   */
  lemma PlainPathIsLocal(text: string, hostname: string, username: string, abs: string -> Result<string>)
    requires text != "(global)"
    requires
      || Plain(text, '@')
      || (!Plain(text, ':')
          && (text[0] == '@' || exists c :: 0 <= c < |text| && text[c] == ':' && Plain(text[..c], '@')))
    ensures var r := Parse(text, hostname, username, abs);
      && (r.Ok? <==> abs(text).Ok?)
      && (r.Ok? ==> r.value.host == hostname && r.value.userName == username && r.value.path == abs(text).value)
  {
    if !Plain(text, '@') && text[0] != '@' {
      var c :| 0 <= c < |text| && text[c] == ':' && Plain(text[..c], '@');
      assert forall k :: 0 <= k < c ==> text[k] == text[..c][k];
    }
  }

  /** "user@" is refused, whoever the user is. */
  lemma MissingHostIsRefused(user: string, hostname: string, username: string, abs: string -> Result<string>)
    requires Plain(user, '@') && Plain(user, ':')
    ensures Parse(user + "@", hostname, username, abs) == Err
  {
    var text := user + "@";
    assert text[..|user|] == user && text[|user|] == '@';
    IndexIs(text, '@', |user|);
    IndexNone(text, ':');
    assert text != "(global)" by { assert Plain("(global)", '@'); }
  }

  predicate SplitsAtBoth(text: string) { 0 < IndexOf(text, '@') < IndexOf(text, ':') }

  predicate SplitsAtHost(text: string) { IndexOf(text, ':') < 0 <= IndexOf(text, '@') }

  /** Read as a plain path, the text form of a source never gives that source's path. */
  lemma NotItsOwnPath(si: SourceInfo, abs: string -> Result<string>)
    requires Absolute(abs) && si != GLOBAL
    ensures abs(Print(si)) != Ok(si.path)
  {
    if si.path != "" {
      assert abs((si.userName + "@" + si.host) + ":" + si.path) != Ok(si.path);
    }
  }

  lemma NotGlobalText(si: SourceInfo)
    requires si != GLOBAL
    ensures Print(si) != "(global)"
  {
    assert Print(si)[|si.userName|] == '@';
    assert Plain("(global)", '@');
  }

  lemma SplitAtBothIsPrintable(si: SourceInfo)
    requires si != GLOBAL && SplitsAtBoth(Print(si))
    ensures var text := Print(si);
            var p1, p2 := IndexOf(text, '@'), IndexOf(text, ':');
            SourceInfo(text[p1 + 1..p2], text[..p1], text[p2 + 1..]) == si ==> Printable(si)
  {
    var text := Print(si);
    var p1, p2 := IndexOf(text, '@'), IndexOf(text, ':');
    var user, host := text[..p1], text[p1 + 1..p2];
    assert Plain(user, '@') && Plain(user, ':') && user != "";
    assert Plain(host, ':') by {
      assert forall k :: 0 <= k < |host| ==> host[k] == text[p1 + 1 + k];
    }
    assert |text| > |user| + 1 + |host|;
  }

  lemma SplitAtHostIsPrintable(si: SourceInfo)
    requires si != GLOBAL && SplitsAtHost(Print(si))
    ensures var text := Print(si);
            var p1 := IndexOf(text, '@');
            p1 + 1 < |text| && SourceInfo(text[p1 + 1..], text[..p1], "") == si ==> Printable(si)
  {
    var text := Print(si);
    var p1 := IndexOf(text, '@');
    var user, host := text[..p1], text[p1 + 1..];
    assert Plain(user, '@') && Plain(user, ':');
    assert Plain(host, ':') by {
      assert forall k :: 0 <= k < |host| ==> host[k] == text[p1 + 1 + k];
    }
  }

  lemma UnprintableIsLost(si: SourceInfo, hostname: string, username: string, abs: string -> Result<string>)
    requires Absolute(abs) && !Printable(si)
    ensures Parse(Print(si), hostname, username, abs) != Ok(si)
  {
    NotItsOwnPath(si, abs);
    NotGlobalText(si);
    if SplitsAtBoth(Print(si)) {
      SplitAtBothIsPrintable(si);
    } else if SplitsAtHost(Print(si)) {
      SplitAtHostIsPrintable(si);
    }
  }

  /** Exactly the printable targets survive being printed and parsed. */
  lemma ParseUndoesPrintExactly(si: SourceInfo, hostname: string, username: string, abs: string -> Result<string>)
    requires Absolute(abs)
    ensures Parse(Print(si), hostname, username, abs) == Ok(si) <==> Printable(si)
  {
    if Printable(si) {
      ParseUndoesPrint(si, hostname, username, abs);
    } else {
      UnprintableIsLost(si, hostname, username, abs);
    }
  }
}
