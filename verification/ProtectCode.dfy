/** The loops and buffers of sexp-parse.h and protect.c. */
module AgentProtect {
  import opened Wrappers
  import opened Decimals
  import opened CanonicalSexp
  import opened KeyProtection
  import opened Buffers
  import S2k

  lemma DigitsSplit(s: string, k: nat)
    requires k <= |s| && (forall i | 0 <= i < k :: IsDigit(s[i])) && (k == |s| || !IsDigit(s[k]))
    ensures DigitsLength(s) == k
  {
    assert s == s[..k] + s[k..];
    DigitsStop(s[..k], s[k..]);
  }

  method ReadLength(text: string) returns (n: nat, rest: string)
    ensures (n, rest) == Snext(text)
  {
    n := 0;
    var k := 0;
    while k < |text| && text[k] != ':' && '0' <= text[k] <= '9'
      invariant 0 <= k <= |text| && forall i | 0 <= i < k :: IsDigit(text[i])
      invariant n == Value(text[..k])
    {
      assert text[..k + 1][..k] == text[..k];
      n := n * 10 + (text[k] as nat - '0' as nat);
      k := k + 1;
    }
    DigitsSplit(text, k);
    if n == 0 || k == |text| || text[k] != ':' {
      return 0, text;
    }
    rest := text[k + 1..];
  }

  method SkipLists(text: string, depth: nat) returns (r: Option<string>)
    ensures r == Sskip(text, depth)
  {
    var s, d := text, depth;
    while d > 0
      invariant Skip(s, d, false) == Skip(text, depth, false)
      decreases |s|
    {
      if At(s) == '(' {
        d, s := d + 1, s[1..];
      } else if At(s) == ')' {
        d, s := d - 1, s[1..];
      } else {
        var n, rest := ReadLength(s);
        if n == 0 {
          return None;
        }
        s := Drop(rest, n);
      }
    }
    r := Some(s);
  }

  method FindAlgorithm(s: string, n: nat) returns (r: Option<(Info, string)>)
    ensures r == FindInfo(s, n, 0)
  {
    var infidx := 0;
    while infidx < |Table|
      invariant 0 <= infidx <= |Table| && FindInfo(s, n, infidx) == FindInfo(s, n, 0)
    {
      var m := Smatch(s, n, Table[infidx].algo);
      if m.Some? {
        return Some((Table[infidx], m.value));
      }
      infidx := infidx + 1;
    }
    r := None;
  }

  /** The loop of agent_protect over the parameters. */
  method ReadParams(ecc: bool, start: Scan) returns (r: Outcome<Scan>)
    ensures r == ScanParams(ecc, start)
  {
    var scan := start;
    while scan.i < |scan.parmlist|
      invariant ScanParams(ecc, scan) == ScanParams(ecc, start)
      decreases |scan.s|
    {
      var next := ScanParam(ecc, scan);
      if next.Err? {
        return next;
      }
      scan := next.value;
    }
    r := Ok(scan);
  }

  /** The loop of merge_lists and calculate_mic over name and value pairs. */
  method PassPairs(start: string) returns (r: Option<string>)
    ensures r == SkipPairs(start)
  {
    var s := start;
    while At(s) == '('
      invariant SkipPairs(s) == SkipPairs(start)
      decreases |s|
    {
      var n, s1 := ReadLength(Drop(s, 1));
      if n == 0 {
        return None;
      }
      var m, s2 := ReadLength(Drop(s1, n));
      if m == 0 || At(Drop(s2, m)) != ')' {
        return None;
      }
      s := Drop(Drop(s2, m), 1);
    }
    r := Some(s);
  }

  method LocateProtected(start: string) returns (r: Outcome<(string, string)>)
    ensures r == FindProtected(start)
  {
    var s := start;
    while true
      invariant FindProtected(s) == FindProtected(start)
      decreases |s|
    {
      if At(s) != '(' {
        return Err(InvSexp);
      }
      var n, s1 := ReadLength(Drop(s, 1));
      if n == 0 {
        return Err(InvSexp);
      }
      var m := Smatch(s1, n, "protected");
      if m.Some? {
        return Ok((s, m.value));
      }
      var skipped := SkipLists(Drop(s1, n), 1);
      if skipped.None? {
        return Err(InvSexp);
      }
      s := skipped.value;
    }
  }

  method LocateTimestamp(start: string) returns (r: Outcome<Option<string>>)
    ensures r == FindTimestamp(start)
  {
    var s := start;
    while At(s) == '('
      invariant FindTimestamp(s) == FindTimestamp(start)
      decreases |s|
    {
      var n, s1 := ReadLength(Drop(s, 1));
      if n == 0 {
        return Err(InvSexp);
      }
      var m := Smatch(s1, n, "protected-at");
      if m.Some? {
        var k, s3 := ReadLength(m.value);
        return if k == 0 then Err(InvSexp) else if k != 15 then Err(UnknownSexp) else Ok(Some(Take(s3, 15)));
      }
      var skipped := SkipLists(Drop(s1, n), 1);
      if skipped.None? {
        return Err(InvSexp);
      }
      s := skipped.value;
    }
    r := Ok(None);
  }

  // ---------------------------------------------------------------------------------
  // Buffers.

  method DeriveKey(lib: Lib, passphrase: string, salt: string, count: nat) returns (key: string)
    requires Lawful(lib) && |salt| == 8
    ensures key == SessionKey(lib, salt, count, passphrase)
  {
    var buf := new char[16];
    var _ := S2k.HashPassphrase(passphrase, lib.sha1, 20, 3, Some(salt), count, buf);
    key := buf[..];
  }

  /** The buffer that is encrypted is filled exactly. */
  method FillPlaintext(block: string, hash: string, pad: string) returns (out: array<char>)
    requires |hash| == 20 && |pad| == 16
    ensures fresh(out) && out.Length == 2 + |block| + 2 + 6 + 6 + 23 + 2 + 16
    ensures out[..] == Plaintext(block, hash, pad)
  {
    var outlen := 2 + |block| + 2 + 6 + 6 + 23 + 2 + 16;
    out := new char[outlen];
    var p := Put(out, 0, "((");
    p := Put(out, p, block);
    p := Put(out, p, ")(4:hash4:sha120:");
    p := Put(out, p, hash);
    p := Put(out, p, "))");
    p := Put(out, p, pad);
    assert p == outlen;
    assert out[..] == out[..p];
    PlaintextJoined(block, hash, pad);
  }

  lemma PlaintextJoined(block: string, hash: string, pad: string)
    ensures "((" + block + ")(4:hash4:sha120:" + hash + "))" + pad == Plaintext(block, hash, pad)
  {
    var a, b, c, d, e, f := "((", block, ")(4:hash4:sha120:", hash, "))", pad;
    assert a + b + c + d + e + f == a + (b + (c + (d + (e + f))));
  }

  method DoEncryption(lib: Lib, nonce: Nonce, count: nat, passphrase: string, block: string, hash: string) returns (data: string)
    requires Lawful(lib) && NonceOk(nonce) && |hash| == 20
    ensures data == Encrypted(lib, nonce, count, passphrase, block, hash)
  {
    var out := FillPlaintext(block, hash, nonce.pad);
    var key := DeriveKey(lib, passphrase, nonce.salt, count);
    var enclen := out.Length / 16 * 16;
    data := lib.encrypt(key, nonce.iv, out[..enclen]);
    assert out[..enclen] == out[..][..enclen];
  }

  lemma {:induction false} ScanBounds(ecc: bool, scan: Scan, n: nat)
    requires |scan.s| <= n && (scan.begin.Some? ==> |scan.begin.value| <= n) && ScanParams(ecc, scan).Ok?
    ensures var r := ScanParams(ecc, scan).value; r.begin.Some? ==> |r.begin.value| <= n
    decreases |scan.s|
  {
    if scan.i < |scan.parmlist| {
      ScanBounds(ecc, ScanParam(ecc, scan).value, n);
    }
  }

  lemma {:induction false} InfoBounds(s: string, n: nat, i: nat)
    requires FindInfo(s, n, i).Some?
    ensures |FindInfo(s, n, i).value.1| <= |s|
    decreases |Table| - i
  {
    if i < |Table| && Smatch(s, n, Table[i].algo).None? {
      InfoBounds(s, n, i + 1);
    }
  }

  lemma HeadBounds(key: string)
    requires ReadHead(key, "private-key").Ok?
    ensures |ReadHead(key, "private-key").value.2| + 12 <= |key|
  {
    var (n, s1) := Snext(Drop(key, 1));
    var s2 := Smatch(s1, n, "private-key").value;
    assert |s2| + 11 == |s1|;
    var (m, s3) := Snext(Drop(s2, 1));
    InfoBounds(s3, m, 0);
  }

  /** The secret parameters do not start in the first bytes of the key. */
  lemma BeginBound(key: string)
    requires ParseClear(key).Ok?
    ensures |ParseClear(key).value.begin| + 4 <= |key|
  {
    HeadBounds(key);
    var (_, info, s) := ReadHead(key, "private-key").value;
    ScanBounds(info.eccHack, Scan(info.parmlist, info.protFrom, info.protTo, 0, s, None, None), |s|);
  }

  method ReadClear(key: string) returns (r: Outcome<Clear>)
    ensures r == ParseClear(key)
  {
    var head := ReadStart(key, "private-key");
    if head.Err? {
      return Err(head.error);
    }
    var (hashBegin, info, s) := head.value;
    var scan := ReadParams(info.eccHack, Scan(info.parmlist, info.protFrom, info.protTo, 0, s, None, None));
    if scan.Err? {
      return Err(scan.error);
    }
    var p := scan.value;
    if At(p.s) != ')' || p.begin.None? || p.end.None? {
      return Err(InvSexp);
    }
    var rest := SkipLists(Drop(p.s, 1), 1);
    r := if rest.None? then Err(InvSexp) else Ok(Clear(hashBegin, p.s, p.begin.value, p.end.value, rest.value));
  }

  method ReadStart(key: string, token: string) returns (r: Outcome<(string, Info, string)>)
    ensures r == ReadHead(key, token)
  {
    if At(key) != '(' {
      return Err(InvSexp);
    }
    var n, s1 := ReadLength(Drop(key, 1));
    if n == 0 {
      return Err(InvSexp);
    }
    var t := Smatch(s1, n, token);
    if t.None? || At(t.value) != '(' {
      return Err(UnknownSexp);
    }
    var m, s2 := ReadLength(Drop(t.value, 1));
    if m == 0 {
      return Err(InvSexp);
    }
    var info := FindAlgorithm(s2, m);
    r := if info.None? then Err(UnsupportedAlgorithm) else Ok((t.value, info.value.0, info.value.1));
  }

  /** agent_protect. */
  method Protect(lib: Lib, nonce: Nonce, count: nat, at: string, passphrase: string, key: string) returns (r: Outcome<string>)
    requires Lawful(lib) && NonceOk(nonce) && |at| == 15
    ensures r == KeyProtection.Protect(lib, nonce, count, at, passphrase, key)
  {
    var parsed := ReadClear(key);
    if parsed.Err? {
      return Err(parsed.error);
    }
    BeginBound(key);
    var text := BuildProtected(lib, nonce, count, at, passphrase, key, parsed.value);
    r := Ok(text);
  }

  /** The buffer for the result is filled exactly. */
  method BuildProtected(lib: Lib, nonce: Nonce, count: nat, at: string, passphrase: string, key: string, c: Clear) returns (text: string)
    requires Lawful(lib) && NonceOk(nonce) && |at| == 15 && |c.begin| + 4 <= |key|
    ensures text == Assemble(lib, nonce, count, at, passphrase, key, c)
  {
    var stamp := Timestamp(at);
    var hash := lib.sha1(Between(c.hashBegin, c.hashEnd) + stamp + ")");
    var data := DoEncryption(lib, nonce, count, passphrase, Between(c.begin, Drop(c.end, 1)), hash);
    var protected := ProtectedList(nonce.salt, count, nonce.iv, data, "");
    var rest := Between(Drop(c.end, 1), c.rest);
    var resultlen := 10 + (|key| - |c.begin|) + |protected| + 35 + |rest|;
    text := FillProtected(resultlen, Between(Drop(key, 4), c.begin), protected, stamp, rest);
  }

  method FillProtected(resultlen: nat, public: string, protected: string, stamp: string, rest: string) returns (text: string)
    requires resultlen == 14 + |public| + |protected| + |stamp| + |rest|
    ensures text == "(21:protected-" + public + protected + stamp + rest
  {
    var result := new char[resultlen];
    var p := Put(result, 0, "(21:protected-");
    p := Put(result, p, public);
    p := Put(result, p, protected);
    p := Put(result, p, stamp);
    p := Put(result, p, rest);
    assert p == resultlen;
    text := result[..];
    assert text == result[..p];
  }

  // ---------------------------------------------------------------------------------
  // Unprotecting.

  method DoDecryption(lib: Lib, passphrase: string, p: Protection) returns (r: Outcome<string>)
    requires Lawful(lib) && |p.salt| == 8
    ensures r == Decrypted(lib, passphrase, p)
  {
    if |p.data| < 4 || |p.data| % 16 != 0 {
      return Err(CorruptedProtection);
    }
    var key := DeriveKey(lib, passphrase, p.salt, p.count);
    var out := lib.decrypt(key, p.iv, p.data);
    if At(out) != '(' && At(Drop(out, 1)) != '(' {
      return Err(BadPassphrase);
    }
    var reallen := lib.canonLen(out);
    r := if reallen == 0 || reallen + 16 < |p.data| then Err(BadPassphrase) else Ok(out);
  }

  method AppendRest(front: string, hash: string, begin: string) returns (r: Outcome<Merged>)
    ensures r == MergeRest(front, hash, begin)
  {
    var t := SkipLists(Drop(begin, 1), 1);
    if t.None? {
      return Err(InvSexp);
    }
    var cutlen := 0;
    if At(t.value) == '(' {
      var n, s1 := ReadLength(Drop(t.value, 1));
      var m := Smatch(s1, n, "protected-at");
      if m.Some? {
        var after := SkipLists(m.value, 1);
        if after.None? {
          return Err(InvSexp);
        }
        cutlen := |Between(t.value, after.value)|;
      }
    }
    var end := SkipLists(t.value, 2);
    if end.None? {
      return Err(InvSexp);
    }
    r := Ok(Merged(front + Between(t.value, end.value), hash, if cutlen > 0 then |front| else 0, cutlen));
  }

  method MergeLists(lib: Lib, key: string, begin: string, cleartext: string) returns (r: Outcome<Merged>)
    ensures r == Merge(lib, key, begin, cleartext)
  {
    if |Between(key, begin)| < 26 || lib.canonLen(key) == 0 || lib.canonLen(cleartext) == 0 {
      return Err(Bug);
    }
    if At(cleartext) != '(' && At(Drop(cleartext, 1)) != '(' {
      return Err(Bug);
    }
    var start := Drop(cleartext, 2);
    var end := PassPairs(start);
    if end.None? || At(end.value) != ')' || ParseMic(Drop(end.value, 1)).None? {
      return Err(InvSexp);
    }
    var front := "(11:private-key" + (Between(Drop(key, 25), begin) + Between(start, end.value));
    r := AppendRest(front, ParseMic(Drop(end.value, 1)).value, begin);
  }

  method CalculateMic(lib: Lib, key: string) returns (r: Outcome<string>)
    ensures r == Mic(lib, key)
  {
    var s := ReadToken(key, "private-key");
    if s.Err? {
      return s;
    }
    var m, s1 := ReadLength(Drop(s.value, 1));
    if m == 0 {
      return Err(InvSexp);
    }
    var s2 := PassPairs(Drop(s1, m));
    if s2.None? || At(s2.value) != ')' {
      return Err(InvSexp);
    }
    r := Ok(lib.sha1(Between(s.value, Drop(s2.value, 1))));
  }

  /** A salt that is cut off by the end of the text is noticed by what follows. */
  lemma SaltLength(s: string)
    requires ParseProtection(s).Ok?
    ensures |ParseProtection(s).value.salt| == 8
  {
    assert ParseCount("").Err?;
  }

  method UnprotectKey(lib: Lib, passphrase: string, key: string, lists: string) returns (r: Outcome<string>)
    requires Lawful(lib)
    ensures r == UnprotectLists(lib, passphrase, key, lists)
  {
    var found := LocateProtected(lists);
    if found.Err? {
      return Err(found.error);
    }
    var (begin, s) := found.value;
    var parsed := ParseProtection(s);
    if parsed.Err? {
      return Err(parsed.error);
    }
    SaltLength(s);
    var clear := DoDecryption(lib, passphrase, parsed.value);
    if clear.Err? {
      return clear;
    }
    var merged := MergeLists(lib, key, begin, clear.value);
    if merged.Err? {
      return Err(merged.error);
    }
    var mic := CalculateMic(lib, merged.value.list);
    r := Finish(lib, merged.value, mic);
  }

  /** agent_unprotect. */
  method Unprotect(lib: Lib, passphrase: string, key: string, wanted: bool) returns (r: Outcome<(string, Option<string>)>)
    requires Lawful(lib)
    ensures r == KeyProtection.Unprotect(lib, passphrase, key, wanted)
  {
    var head := ReadStart(key, "protected-private-key");
    if head.Err? {
      return Err(head.error);
    }
    var lists := head.value.2;
    var at := None;
    if wanted {
      var stamp := LocateTimestamp(lists);
      if stamp.Err? {
        return Err(stamp.error);
      }
      at := stamp.value;
    }
    var clear := UnprotectKey(lib, passphrase, key, lists);
    r := if clear.Err? then Err(clear.error) else Ok((clear.value, at));
  }
}
