/** Private key protection: the operations of cns/gnupg-2.0.22/agent/protect.c as functions on
    the texts of keys. */
module KeyProtection {
  import opened Wrappers
  import opened Decimals
  import opened CanonicalSexp
  import S2k
  import Powers

  datatype Error = InvSexp | UnknownSexp | UnsupportedAlgorithm | UnsupportedProtection
                 | CorruptedProtection | BadPassphrase | Bug

  type Outcome<+T> = Result<T, Error>

  datatype Info = Info(algo: string, parmlist: string, protFrom: nat, protTo: nat, eccHack: bool)

  /** protect_info. */
  const Table: seq<Info> :=
    [ Info("rsa", "nedpqu", 2, 5, false),
      Info("dsa", "pqgyx", 4, 4, false),
      Info("elg", "pgyx", 3, 3, false),
      Info("ecdsa", "pabgnqd", 6, 6, true),
      Info("ecdh", "pabgnqd", 6, 6, true),
      Info("ecc", "pabgnqd", 6, 6, true) ]

  const Mode := "openpgp-s2k3-sha1-aes-cbc"

  /** The foreign functions: AES in CBC mode (key, initialisation vector, data), SHA-1, and
      gcry_sexp_canon_len. */
  datatype Lib = Lib(encrypt: (string, string, string) -> string, decrypt: (string, string, string) -> string,
                     sha1: string -> string, canonLen: string -> nat)

  /** All that is needed of them. */
  ghost predicate Lawful(lib: Lib) {
    && (forall key, iv, data | |data| % 16 == 0 ::
          |lib.encrypt(key, iv, data)| == |data| && lib.decrypt(key, iv, lib.encrypt(key, iv, data)) == data)
    && (forall data :: |lib.sha1(data)| == 20)
    && (forall s, rest | Canonical(s, rest) :: lib.canonLen(s) == |s| - |rest|)
  }

  /** The random bytes of one encryption. */
  datatype Nonce = Nonce(iv: string, pad: string, salt: string)

  predicate NonceOk(nonce: Nonce) { |nonce.iv| == 16 && |nonce.pad| == 16 && |nonce.salt| == 8 }

  // ---------------------------------------------------------------------------------
  // Protecting.

  function FindInfo(s: string, n: nat, i: nat): Option<(Info, string)>
    decreases |Table| - i
  {
    if i >= |Table| then None
    else
      match Smatch(s, n, Table[i].algo)
      case Some(rest) => Some((Table[i], rest))
      case None => FindInfo(s, n, i + 1)
  }

  /** The start of a key: a pointer to the list behind the token. */
  function ReadToken(key: string, token: string): Outcome<string> {
    if At(key) != '(' then Err(InvSexp)
    else
      var (n, s1) := Snext(Drop(key, 1));
      if n == 0 then Err(InvSexp)
      else
        match Smatch(s1, n, token)
        case None => Err(UnknownSexp)
        case Some(s2) => if At(s2) != '(' then Err(UnknownSexp) else Ok(s2)
  }

  /** The start of a key up to the name of the algorithm: pointers to the list of the algorithm
      and behind the name, with the row of the table. */
  function ReadHead(key: string, token: string): Outcome<(string, Info, string)> {
    match ReadToken(key, token)
    case Err(e) => Err(e)
    case Ok(s) =>
      var (m, s1) := Snext(Drop(s, 1));
      if m == 0 then Err(InvSexp)
      else
        match FindInfo(s1, m, 0)
        case None => Err(UnsupportedAlgorithm)
        case Some((info, s2)) => Ok((s, info, s2))
  }

  /** Parameter i, which should be named c: whether it is, rather than being the name of a
      curve, and a pointer to its closing parenthesis. */
  function ReadParam(ecc: bool, c: char, i: nat, s: string): (r: Outcome<(bool, string)>)
    ensures r.Ok? ==> |r.value.1| < |s| && At(r.value.1) == ')'
  {
    if At(s) != '(' then Err(InvSexp)
    else
      var (n, s1) := Snext(Drop(s, 1));
      var named := n == 1 && At(s1) == c;
      if n == 0 || !(named || (n == 5 && Take(s1, 5) == "curve" && i == 0 && ecc)) then Err(InvSexp)
      else
        var (m, s2) := Snext(Drop(s1, n));
        if m == 0 || At(Drop(s2, m)) != ')' then Err(InvSexp) else Ok((named, Drop(s2, m)))
  }

  /** The variables of the loop over the parameters: the parameter list in use and the range of
      it that is protected, the position in it and in the text, and pointers to the first
      protected parameter and to the parenthesis that closes the last one. */
  datatype Scan = Scan(parmlist: string, from: nat, to: nat, i: nat, s: string,
                       begin: Option<string>, end: Option<string>)

  /** One pass of the loop. */
  function ScanParam(ecc: bool, scan: Scan): (r: Outcome<Scan>)
    requires scan.i < |scan.parmlist|
    ensures r.Ok? ==> |r.value.s| < |scan.s|
  {
    match ReadParam(ecc, scan.parmlist[scan.i], scan.i, scan.s)
    case Err(e) => Err(e)
    case Ok((named, close)) =>
      var begin := if scan.i == scan.from then Some(scan.s) else scan.begin;
      var (parmlist, from, to) := if named then (scan.parmlist, scan.from, scan.to) else ("?qd", 2, 2);
      Ok(Scan(parmlist, from, to, scan.i + 1, Drop(close, 1), begin, if scan.i == to then Some(close) else scan.end))
  }

  function ScanParams(ecc: bool, scan: Scan): Outcome<Scan>
    decreases |scan.s|
  {
    if scan.i >= |scan.parmlist| then Ok(scan)
    else
      match ScanParam(ecc, scan)
      case Err(e) => Err(e)
      case Ok(next) => ScanParams(ecc, next)
  }

  /** What agent_protect finds in a key. */
  datatype Clear = Clear(hashBegin: string, hashEnd: string, begin: string, end: string, rest: string)

  function ParseClear(key: string): Outcome<Clear> {
    match ReadHead(key, "private-key")
    case Err(e) => Err(e)
    case Ok((hashBegin, info, s)) =>
      ParseTail(hashBegin, ScanParams(info.eccHack, Scan(info.parmlist, info.protFrom, info.protTo, 0, s, None, None)))
  }

  /** The rest of the parse, behind the loop over the parameters. */
  function ParseTail(hashBegin: string, scan: Outcome<Scan>): Outcome<Clear> {
    match scan
    case Err(e) => Err(e)
    case Ok(p) =>
      if At(p.s) != ')' || p.begin.None? || p.end.None? then Err(InvSexp)
      else
        match Sskip(Drop(p.s, 1), 1)
        case None => Err(InvSexp)
        case Some(rest) => Ok(Clear(hashBegin, p.s, p.begin.value, p.end.value, rest))
  }

  /** The parameter list, the integrity code and a full block of padding. */
  function Plaintext(block: string, hash: string, pad: string): string {
    "((" + (block + (")(4:hash4:sha120:" + (hash + ("))" + pad))))
  }

  /** Only whole cipher blocks are encrypted. */
  function EncLen(protlen: nat): nat { (2 + protlen + 2 + 6 + 6 + 23 + 2 + 16) / 16 * 16 }

  function SessionKey(lib: Lib, salt: string, count: nat, passphrase: string): string {
    S2k.Key(lib.sha1, 20, 3, salt, count, passphrase, 16)
  }

  function Encrypted(lib: Lib, nonce: Nonce, count: nat, passphrase: string, block: string, hash: string): string {
    lib.encrypt(SessionKey(lib, nonce.salt, count, passphrase), nonce.iv,
                Take(Plaintext(block, hash, nonce.pad), EncLen(|block|)))
  }

  /** The list that takes the place of the protected parameters. */
  function ProtectedList(salt: string, count: nat, iv: string, data: string, tail: string): string {
    "(9:protected25:" + (Mode + ("((4:sha18:" + (salt + Net(Decimal(count), ")16:" + (iv + (")" + Net(data, ")" + tail)))))))
  }

  function Timestamp(at: string): string { "(12:protected-at15:" + (at + ")") }

  /** The protected key, from the pointers into the clear one. */
  function Assemble(lib: Lib, nonce: Nonce, count: nat, at: string, passphrase: string, key: string, c: Clear): string {
    var hash := lib.sha1(Between(c.hashBegin, c.hashEnd) + Timestamp(at) + ")");
    var data := Encrypted(lib, nonce, count, passphrase, Between(c.begin, Drop(c.end, 1)), hash);
    "(21:protected-" + Between(Drop(key, 4), c.begin)
      + ProtectedList(nonce.salt, count, nonce.iv, data, "")
      + Timestamp(at) + Between(Drop(c.end, 1), c.rest)
  }

  /** agent_protect. */
  function Protect(lib: Lib, nonce: Nonce, count: nat, at: string, passphrase: string, key: string): Outcome<string> {
    match ParseClear(key)
    case Err(e) => Err(e)
    case Ok(c) => Ok(Assemble(lib, nonce, count, at, passphrase, key, c))
  }

  // ---------------------------------------------------------------------------------
  // Unprotecting.

  /** The value of the first protected-at list, if there is one. */
  function FindTimestamp(s: string): Outcome<Option<string>>
    decreases |s|
  {
    if At(s) != '(' then Ok(None)
    else
      var (n, s1) := Snext(Drop(s, 1));
      if n == 0 then Err(InvSexp)
      else
        match Smatch(s1, n, "protected-at")
        case Some(s2) =>
          var (m, s3) := Snext(s2);
          if m == 0 then Err(InvSexp) else if m != 15 then Err(UnknownSexp) else Ok(Some(Take(s3, 15)))
        case None =>
          match Sskip(Drop(s1, n), 1)
          case None => Err(InvSexp)
          case Some(s4) => FindTimestamp(s4)
  }

  /** Pointers to the protected list and behind its first atom. */
  function FindProtected(s: string): Outcome<(string, string)>
    decreases |s|
  {
    if At(s) != '(' then Err(InvSexp)
    else
      var (n, s1) := Snext(Drop(s, 1));
      if n == 0 then Err(InvSexp)
      else
        match Smatch(s1, n, "protected")
        case Some(s2) => Ok((s, s2))
        case None =>
          match Sskip(Drop(s1, n), 1)
          case None => Err(InvSexp)
          case Some(s3) => FindProtected(s3)
  }

  /** strtoul without the white space and the sign that the printer never writes. */
  function Strtoul(s: string): nat { Value(s[..DigitsLength(s)]) }

  /** Counts below 256 are the one-byte numbers of OpenPGP. */
  function S2kCount(n: nat): nat {
    if n < 256 then (16 + n % 16) * Powers.Pow2(n / 16 + 6) else n
  }

  datatype Protection = Protection(salt: string, count: nat, iv: string, data: string)

  /** A pointer behind the mode and the two parentheses. */
  function ParseMode(s: string): Outcome<string> {
    var (n, s1) := Snext(s);
    if n == 0 then Err(InvSexp)
    else
      match Smatch(s1, n, Mode)
      case None => Err(UnsupportedProtection)
      case Some(s2) => if At(s2) != '(' || At(Drop(s2, 1)) != '(' then Err(InvSexp) else Ok(Drop(s2, 2))
  }

  function ParseSalt(s: string): Outcome<(string, string)> {
    var (m, s3) := Snext(s);
    if m == 0 then Err(InvSexp)
    else
      match Smatch(s3, m, "sha1")
      case None => Err(UnsupportedProtection)
      case Some(s4) =>
        var (k, s5) := Snext(s4);
        if k != 8 then Err(CorruptedProtection) else Ok((Take(s5, 8), Drop(s5, 8)))
  }

  function ParseCount(s: string): Outcome<(nat, string)> {
    var (n, s1) := Snext(s);
    if n == 0 then Err(CorruptedProtection)
    else if At(Drop(s1, n)) != ')' then Err(InvSexp)
    else
      var c := Strtoul(s1);
      if c == 0 || S2kCount(c) < 65536 then Err(CorruptedProtection)
      else Ok((S2kCount(c), Drop(Drop(s1, n), 1)))
  }

  function ParseData(s: string): Outcome<(string, string)> {
    var (n, s1) := Snext(s);
    if n != 16 then Err(CorruptedProtection)
    else if At(Drop(s1, n)) != ')' then Err(InvSexp)
    else
      var (m, s2) := Snext(Drop(Drop(s1, n), 1));
      if m == 0 then Err(InvSexp) else Ok((Take(s1, 16), Take(s2, m)))
  }

  function ParseProtection(s: string): Outcome<Protection> {
    match ParseMode(s)
    case Err(e) => Err(e)
    case Ok(s0) =>
      match ParseSalt(s0)
      case Err(e) => Err(e)
      case Ok((salt, s1)) =>
        match ParseCount(s1)
        case Err(e) => Err(e)
        case Ok((count, s2)) =>
          match ParseData(s2)
          case Err(e) => Err(e)
          case Ok((iv, data)) => Ok(Protection(salt, count, iv, data))
  }

  /** do_decryption. */
  function Decrypted(lib: Lib, passphrase: string, p: Protection): Outcome<string> {
    if |p.data| < 4 || |p.data| % 16 != 0 then Err(CorruptedProtection)
    else
      var out := lib.decrypt(SessionKey(lib, p.salt, p.count, passphrase), p.iv, p.data);
      if At(out) != '(' && At(Drop(out, 1)) != '(' then Err(BadPassphrase)
      else
        var reallen := lib.canonLen(out);
        if reallen == 0 || reallen + 16 < |p.data| then Err(BadPassphrase) else Ok(out)
  }

  /** The loop over lists of a name and a value. */
  function SkipPairs(s: string): Option<string>
    decreases |s|
  {
    if At(s) != '(' then Some(s)
    else
      var (n, s1) := Snext(Drop(s, 1));
      var (m, s2) := Snext(Drop(s1, n));
      var s3 := Drop(s2, m);
      if n == 0 || m == 0 || At(s3) != ')' then None else SkipPairs(Drop(s3, 1))
  }

  /** The integrity code behind the parameters of the cleartext. */
  function ParseMic(s: string): Option<string> {
    if At(s) != '(' then None
    else
      var (n, s1) := Snext(Drop(s, 1));
      match Smatch(s1, n, "hash")
      case None => None
      case Some(s2) =>
        var (m, s3) := Snext(s2);
        match Smatch(s3, m, "sha1")
        case None => None
        case Some(s4) =>
          var (k, s5) := Snext(s4);
          if k != 20 || At(Drop(s5, 20)) != ')' then None else Some(Take(s5, 20))
  }

  /** The length of the protected-at list at t; 0 if there is none, None on error. */
  function CutLength(t: string): Option<nat> {
    if At(t) != '(' then Some(0)
    else
      var (n, s1) := Snext(Drop(t, 1));
      match Smatch(s1, n, "protected-at")
      case None => Some(0)
      case Some(s2) =>
        match Sskip(s2, 1)
        case None => None
        case Some(s3) => Some(|Between(t, s3)|)
  }

  datatype Merged = Merged(list: string, hash: string, cutoff: nat, cutlen: nat)

  /** merge_lists; `begin` points to the protected list in `key`. */
  function Merge(lib: Lib, key: string, begin: string, cleartext: string): Outcome<Merged> {
    if |Between(key, begin)| < 26 || lib.canonLen(key) == 0 || lib.canonLen(cleartext) == 0 then Err(Bug)
    else if At(cleartext) != '(' && At(Drop(cleartext, 1)) != '(' then Err(Bug)
    else
      var start := Drop(cleartext, 2);
      match SkipPairs(start)
      case None => Err(InvSexp)
      case Some(end) =>
        if At(end) != ')' || ParseMic(Drop(end, 1)).None? then Err(InvSexp)
        else
          var front := "(11:private-key" + (Between(Drop(key, 25), begin) + Between(start, end));
          MergeRest(front, ParseMic(Drop(end, 1)).value, begin)
  }

  /** Its second half: what stands behind the protected list is appended. */
  function MergeRest(front: string, hash: string, begin: string): Outcome<Merged> {
    match Sskip(Drop(begin, 1), 1)
    case None => Err(InvSexp)
    case Some(t) =>
      match CutLength(t)
      case None => Err(InvSexp)
      case Some(cutlen) =>
        match Sskip(t, 2)
        case None => Err(InvSexp)
        case Some(end) => Ok(Merged(front + Between(t, end), hash, if cutlen > 0 then |front| else 0, cutlen))
  }

  /** calculate_mic. */
  function Mic(lib: Lib, key: string): Outcome<string> {
    match ReadToken(key, "private-key")
    case Err(e) => Err(e)
    case Ok(s) =>
      var (m, s1) := Snext(Drop(s, 1));
      if m == 0 then Err(InvSexp)
      else
        match SkipPairs(Drop(s1, m))
        case None => Err(InvSexp)
        case Some(s2) => if At(s2) != ')' then Err(InvSexp) else Ok(lib.sha1(Between(s, Drop(s2, 1))))
  }

  /** With the integrity code of the merged list: the check, the cut, and the length of what remains. */
  function Finish(lib: Lib, m: Merged, mic: Outcome<string>): Outcome<string> {
    match mic
    case Err(e) => Err(e)
    case Ok(hash) =>
      if hash != m.hash then Err(CorruptedProtection)
      else
        var cut := if m.cutlen == 0 then m.list else Take(m.list, m.cutoff) + Drop(m.list, m.cutoff + m.cutlen);
        Ok(Take(cut, lib.canonLen(cut)))
  }

  function UnprotectLists(lib: Lib, passphrase: string, key: string, lists: string): Outcome<string> {
    match FindProtected(lists)
    case Err(e) => Err(e)
    case Ok((begin, s)) =>
      match ParseProtection(s)
      case Err(e) => Err(e)
      case Ok(p) =>
        match Decrypted(lib, passphrase, p)
        case Err(e) => Err(e)
        case Ok(cleartext) =>
          match Merge(lib, key, begin, cleartext)
          case Err(e) => Err(e)
          case Ok(m) => Finish(lib, m, Mic(lib, m.list))
  }

  /** agent_unprotect; the time stamp is only looked for when it is wanted. */
  function Unprotect(lib: Lib, passphrase: string, key: string, wanted: bool): Outcome<(string, Option<string>)> {
    match ReadHead(key, "protected-private-key")
    case Err(e) => Err(e)
    case Ok((_, _, lists)) =>
      match if wanted then FindTimestamp(lists) else Ok(None)
      case Err(e) => Err(e)
      case Ok(at) =>
        match UnprotectLists(lib, passphrase, key, lists)
        case Err(e) => Err(e)
        case Ok(clear) => Ok((clear, at))
  }
}
