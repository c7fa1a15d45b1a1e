/**
 * The proxy's response cache (cache.c).  A response is stored in a file
 * named after a 32-bit hash of the requested resource; the file starts with
 * the resource and CRLF, so that a lookup can tell a hash collision from a
 * hit, and then holds the response bytes exactly as they came from the host.
 *
 * C strings are sequences of characters, each standing for one byte, and the
 * file system is a value: a lookup is given the contents of the file named
 * by the hash, or None when there is no such file.
 */
module ProxyCache {
  import opened Common
  import ChunkQueue

  // ---------------------------------------------------------------------------
  // hash
  // ---------------------------------------------------------------------------

  /** The byte a C `char` holds. */
  function Byte(c: char): (b: nat)
    ensures b < 256
  {
    (c as int) % 256
  }

  /** Four bytes read as one `unsigned int` on a little-endian machine, the first byte lowest. */
  function Word(w: string): (x: nat)
    requires |w| == 4
    ensures x < TWO_32
  {
    Byte(w[0]) + 0x100 * Byte(w[1]) + 0x1_0000 * Byte(w[2]) + 0x100_0000 * Byte(w[3])
  }

  /** One step of the hash on `unsigned int`: n * 31 + x, wrapping at 2^32. */
  function Mix(n: nat, x: nat): (r: nat)
    ensures r < TWO_32
    ensures n * 31 + x < TWO_32 ==> r == n * 31 + x
  {
    (n * 31 + x) % TWO_32
  }

  /**
   * The hash of the whole words of s, first word first.  It is used on lengths that are
   * multiples of 4; on others, the first one to three bytes are left out.
   */
  function WordsHash(s: string): (n: nat)
    ensures n < TWO_32
    decreases |s|
  {
    if |s| < 4 then 0 else Mix(WordsHash(s[..|s| - 4]), Word(s[|s| - 4..]))
  }

  /** How many of `len` bytes make whole words. */
  function WordsLength(len: nat): (p: nat)
    ensures p <= len < p + 4
    decreases len
  {
    if len < 4 then 0 else 4 + WordsLength(len - 4)
  }

  /** The whole words are the length less its remainder modulo 4. */
  lemma {:induction false} WordsLengthMod(len: nat)
    ensures WordsLength(len) == len - len % 4
    decreases len
  {
    if len >= 4 {
      WordsLengthMod(len - 4);
      assert (len - 4) % 4 == len % 4;
    }
  }

  /** Up to three bytes after whole words make no further word. */
  lemma {:induction false} WordsLengthPlus(p: nat, j: nat)
    requires WordsLength(p) == p && j < 4
    ensures WordsLength(p + j) == p
    decreases p
  {
    if p >= 4 {
      WordsLengthPlus(p - 4, j);
    }
  }

  /** A tail of one to three bytes, padded on the right with zero bytes to a whole word. */
  function Pad(t: string): (w: string)
    requires |t| < 4
    ensures |w| == 4 && w[..|t|] == t
    ensures forall k :: |t| <= k < 4 ==> w[k] == '\0'
  {
    t + seq(4 - |t|, _ => '\0')
  }

  /**
   * The hash of a resource: the words of it, then a tail of one to three
   * bytes padded to a word; the empty resource hashes to 0.
   */
  function Hash(s: string): (n: nat)
    ensures n < TWO_32
  {
    var p := WordsLength(|s|);
    var words := WordsHash(s[..p]);
    if p == |s| then words else Mix(words, Word(Pad(s[p..])))
  }

  /** The cache file name for a resource: "./cache/" and the hash in decimal. */
  function CacheName(resource: string): (name: string)
    ensures |name| > 8 && name[..8] == "./cache/" && AllDigits(name[8..])
    ensures DecimalValue(name[8..]) == Hash(resource)
    ensures |name| < 32
  {
    var n := Hash(resource);
    DecimalRoundTrip(n);
    DecimalLength(n, 10);
    var name := "./cache/" + NatToDecimal(n);
    assert name[8..] == NatToDecimal(n);
    name
  }

  /** Below 10^k, a number has at most k decimal digits. */
  lemma {:induction false} DecimalLength(n: nat, k: nat)
    requires k >= 1 && n < Pow10(k)
    ensures |NatToDecimal(n)| <= k
    decreases k
  {
    if n >= 10 {
      assert n / 10 < Pow10(k - 1);
      assert Pow10(0) == 1;
      DecimalLength(n / 10, k - 1);
    }
  }

  /** A whole word added to a resource of whole words is mixed into its hash. */
  lemma HashWord(a: string, w: string)
    requires |a| % 4 == 0 && |w| == 4
    ensures Hash(a + w) == Mix(Hash(a), Word(w))
  {
    var s := a + w;
    assert WordsLength(|a|) == |a| by {
      WordsLengthMod(|a|);
    }
    assert Hash(s) == WordsHash(s) by {
      assert s[..|s|] == s;
    }
    assert Hash(a) == WordsHash(a) by {
      assert a[..|a|] == a;
    }
    assert WordsHash(s) == Mix(WordsHash(a), Word(w)) by {
      assert s[..|s| - 4] == a && s[|s| - 4..] == w;
    }
  }

  /** A tail of one to three bytes after whole words is mixed in padded with zeros. */
  lemma HashTail(a: string, t: string)
    requires |a| % 4 == 0 && 0 < |t| < 4
    ensures Hash(a + t) == Mix(Hash(a), Word(Pad(t)))
  {
    var s := a + t;
    assert WordsLength(|a|) == |a| by {
      WordsLengthMod(|a|);
    }
    assert WordsLength(|s|) == |a| by {
      WordsLengthPlus(|a|, |t|);
    }
    assert s[..|a|] == a && s[|a|..] == t;
    assert a[..|a|] == a;
  }

  /**
   * Two resources with one name: the hash is not injective, so a file found
   * under a name may hold another resource.
   */
  lemma HashCollision()
    ensures CacheName("aaaaaaaa") == CacheName("baaaBaaa")
  {
    assert Word("baaa") == Word("aaaa") + 1 && Word("Baaa") + 31 == Word("aaaa");
    assert "aaaa" + "aaaa" == "aaaaaaaa" && "baaa" + "Baaa" == "baaaBaaa";
    ShiftCollision("aaaa", "aaaa", "baaa", "Baaa");
  }

  /**
   * Two-word resources collide when the second has one more in its first
   * word and 31 less in its second.
   */
  lemma ShiftCollision(w1: string, w2: string, v1: string, v2: string)
    requires |w1| == |w2| == |v1| == |v2| == 4
    requires Word(v1) == Word(w1) + 1 && Word(v2) + 31 == Word(w2)
    ensures Hash(w1 + w2) == Hash(v1 + v2)
  {
    OneWord(w1);
    OneWord(v1);
    HashWord(w1, w2);
    HashWord(v1, v2);
    var x := Word(w1);
    assert x * 31 + Word(w2) == (x + 1) * 31 + Word(v2);
  }

  /** The empty resource is named "./cache/0". */
  lemma EmptyResourceName()
    ensures CacheName("") == "./cache/0"
  {
    assert Hash("") == 0;
  }

  /** A resource of one word hashes to that word. */
  lemma OneWord(w: string)
    requires |w| == 4
    ensures Hash(w) == Word(w)
  {
    assert Hash([]) == 0;
    HashWord([], w);
    assert [] + w == w;
  }

  /**
   * `hash`: folds each whole word of the resource into n, then the padded
   * tail, and names the file after n.  The host is not read.
   */
  method HashName(host: string, resource: string) returns (name: string)
    requires NoNul(resource)
    ensures name == CacheName(resource)
  {
    var z := resource + ['\0'];
    var n, p := FoldWords(z);
    n := FoldTail(z, n, p);
    name := "./cache/" + NatToDecimal(n);
  }

  /** The first loop of `hash`: whole words while none of the next four bytes is NUL. */
  method FoldWords(z: string) returns (n: nat, p: nat)
    requires |z| > 0 && NoNul(z[..|z| - 1]) && z[|z| - 1] == '\0'
    ensures p == WordsLength(|z| - 1)
    ensures n == WordsHash(z[..p])
  {
    n, p := 0, 0;
    while z[p] != '\0' && z[p + 1] != '\0' && z[p + 2] != '\0' && z[p + 3] != '\0'
      invariant WordsLength(p) == p && p < |z|
      invariant n == WordsHash(z[..p])
      decreases |z| - p
    {
      n := MixWord(z, p, n);
      p := p + 4;
    }
    var k := if z[p] == '\0' then p else if z[p + 1] == '\0' then p + 1
             else if z[p + 2] == '\0' then p + 2 else p + 3;
    OnlyNulAtEnd(z, k);
    WordsLengthPlus(p, k - p);
  }

  /** The body of the first loop: the next whole word mixed in. */
  function MixWord(z: string, p: nat, n: nat): (r: nat)
    requires p + 4 <= |z| && n == WordsHash(z[..p])
    ensures r == WordsHash(z[..p + 4])
  {
    WordsHashStep(z, p);
    Mix(n, Word(z[p..p + 4]))
  }

  /** Four more bytes of whole words are mixed into the hash of the words before them. */
  lemma WordsHashStep(z: string, p: nat)
    requires p + 4 <= |z|
    ensures WordsHash(z[..p + 4]) == Mix(WordsHash(z[..p]), Word(z[p..p + 4]))
  {
    assert z[..p + 4][..p] == z[..p];
    assert z[..p + 4][p..] == z[p..p + 4];
  }

  /** In a C string's memory, the only NUL is the terminator. */
  lemma OnlyNulAtEnd(z: string, k: nat)
    requires |z| > 0 && NoNul(z[..|z| - 1])
    requires k < |z| && z[k] == '\0'
    ensures k == |z| - 1
  {
  }

  /** The rest of `hash`: the tail copied into `rem`, padded with zero bytes and mixed in. */
  method FoldTail(z: string, n0: nat, p: nat) returns (n: nat)
    requires |z| > 0 && NoNul(z[..|z| - 1]) && z[|z| - 1] == '\0'
    requires p == WordsLength(|z| - 1) && n0 == WordsHash(z[..p])
    ensures n == Hash(z[..|z| - 1])
  {
    var rem := new char[4];
    var i := CopyTail(z, p, rem);
    n := n0;
    if i == 0 {
      WholeWordsHash(z, p, n0);
    } else {
      forall j | i <= j < 4 {
        rem[j] := '\0';
      }
      Padded(rem[..], z[p..|z| - 1]);
      n := MixTail(z, p, n, rem[..]);
    }
  }

  /** A word holding the tail and then zero bytes is the padded tail. */
  lemma Padded(w: string, t: string)
    requires |w| == 4 && |t| < 4 && w[..|t|] == t
    requires forall j :: |t| <= j < 4 ==> w[j] == '\0'
    ensures w == Pad(t)
  {
    assert w[|t|..] == seq(4 - |t|, _ => '\0');
    assert w == w[..|t|] + w[|t|..];
  }

  /** The copy loop of `hash`: the bytes before the terminator go to the front of `rem`. */
  method CopyTail(z: string, p: nat, rem: array<char>) returns (i: nat)
    requires |z| > 0 && NoNul(z[..|z| - 1]) && z[|z| - 1] == '\0'
    requires p <= |z| - 1 < p + 4 && rem.Length == 4
    modifies rem
    ensures p + i == |z| - 1 && rem[..i] == z[p..|z| - 1]
  {
    i := 0;
    while z[p + i] != '\0'
      invariant 0 <= i <= |z| - 1 - p
      invariant rem[..i] == z[p..p + i]
      decreases |z| - 1 - p - i
    {
      assert z[p + i] == z[..|z| - 1][p + i];
      rem[i] := z[p + i];
      i := i + 1;
    }
  }

  /** Without a tail, the hash of the C string `z` is that of its words. */
  lemma WholeWordsHash(z: string, p: nat, n: nat)
    requires |z| > 0 && p == WordsLength(|z| - 1) == |z| - 1 && n == WordsHash(z[..p])
    ensures n == Hash(z[..|z| - 1])
  {
    assert z[..|z| - 1][..p] == z[..p];
  }

  /** The end of `hash`: the padded tail mixed into the hash of the words before it. */
  function MixTail(z: string, p: nat, n: nat, w: string): (r: nat)
    requires |z| > 0 && p == WordsLength(|z| - 1) && p < |z| - 1
    requires n == WordsHash(z[..p]) && w == Pad(z[p..|z| - 1])
    ensures r == Hash(z[..|z| - 1])
  {
    var s := z[..|z| - 1];
    assert s[..p] == z[..p] && s[p..] == z[p..|z| - 1];
    Mix(n, Word(w))
  }

  /** The contents of a cache file: the resource, CRLF, then the response bytes. */
  function CacheFile(resource: string, body: string): string
  {
    resource + "\r\n" + body
  }

  /**
   * `create_cache_file`, without the file system: the contents written are
   * the resource, CRLF and the chunks of the queue after its sentinel, in
   * the order of the queue walk; the file is then renamed to the name the
   * hash gives.
   */
  method CreateCacheFile(q: ChunkQueue.Queue, host: string, resource: string) returns (name: string, contents: string)
    requires q.Valid() && NoNul(resource)
    ensures name == CacheName(resource)
    ensures contents == CacheFile(resource, Concat(ChunkQueue.Bufs(q.nodes[1..])))
  {
    var pieces := q.Pieces();
    contents := resource + "\r\n";
    for k := 0 to |pieces|
      invariant contents == resource + "\r\n" + Concat(pieces[..k])
    {
      assert pieces[..k + 1] == pieces[..k] + [pieces[k]];
      ConcatAppend(pieces[..k], pieces[k]);
      contents := contents + pieces[k];
    }
    assert pieces[..|pieces|] == pieces;
    name := HashName(host, resource);
  }

  /** What a cache lookup does: the error codes, or the response bytes to send. */
  datatype Lookup =
    | NotExist          // FILE_NOT_EXIST: no file under the name
    | ShortHeader       // a first line shorter than two bytes
    | Conflict(stored: string)  // CACHE_CONFLICT: the file holds another resource
    | Hit(body: string)

  /** The first line as `getline` reads it: up to and including the first LF, or all of f. */
  function FirstLine(f: string): (line: string)
    ensures IsPrefix(line, f)
    ensures forall k :: 0 <= k < |line| - 1 ==> line[k] != '\n'
    ensures |line| < |f| ==> |line| > 0 && line[|line| - 1] == '\n'
    decreases |f|
  {
    if |f| == 0 then []
    else if f[0] == '\n' then ['\n']
    else [f[0]] + FirstLine(f[1..])
  }

  /** `strlen`: the length up to the first NUL. */
  function StrLen(s: string): (n: nat)
    ensures n <= |s| && NoNul(s[..n]) && (n < |s| ==> s[n] == '\0')
    decreases |s|
  {
    if |s| == 0 || s[0] == '\0' then 0
    else
      var n := 1 + StrLen(s[1..]);
      assert s[..n] == [s[0]] + s[1..][..n - 1];
      n
  }

  /**
   * `if_cache_file_exists_send_to_client`, decision part: the first line,
   * cut at its first NUL, less its last two bytes, must be the resource; the
   * rest of the file is what is sent.
   */
  function LookUp(resource: string, file: Option<string>): (r: Lookup)
    ensures r.Hit? ==> file.Some? && exists k :: 0 <= k <= |file.value| && r.body == file.value[k..]
  {
    if file.None? then NotExist
    else
      var f := file.value;
      var line := FirstLine(f);
      var n := StrLen(line);
      if n < 2 then ShortHeader
      else if line[..n - 2] != resource then Conflict(line[..n - 2])
      else Hit(f[|line|..])
  }

  /** The first line of a cache file is the resource and CRLF, for a resource without LF. */
  lemma {:induction false} FirstLineOfFile(resource: string, body: string)
    requires '\n' !in resource
    ensures FirstLine(CacheFile(resource, body)) == resource + "\r\n"
    decreases |resource|
  {
    var f := CacheFile(resource, body);
    if |resource| == 0 {
      assert f[1..] == "\n" + body;
    } else {
      assert f[1..] == CacheFile(resource[1..], body);
      assert resource[0] in resource;
      FirstLineOfFile(resource[1..], body);
      assert resource + "\r\n" == [resource[0]] + (resource[1..] + "\r\n");
    }
  }

  /**
   * A file written for a resource (without NUL or LF) is a hit for that
   * resource and returns the response bytes, and a conflict for any other.
   */
  lemma CacheRoundTrip(resource: string, other: string, body: string)
    requires NoNul(resource) && '\n' !in resource
    ensures LookUp(resource, Some(CacheFile(resource, body))) == Hit(body)
    ensures other != resource ==> LookUp(other, Some(CacheFile(resource, body))) == Conflict(resource)
  {
    var f := CacheFile(resource, body);
    FirstLineOfFile(resource, body);
    var line := resource + "\r\n";
    assert StrLen(line) == |resource| + 2 by {
      assert NoNul(line);
    }
    assert line[..|resource|] == resource;
    assert f[|line|..] == body;
  }

  /** The file written from a queue is a hit for its resource, returning the queued chunks. */
  lemma WrittenFileHits(resource: string, chunks: seq<string>)
    requires NoNul(resource) && '\n' !in resource
    ensures LookUp(resource, Some(CacheFile(resource, Concat(chunks)))) == Hit(Concat(chunks))
  {
    CacheRoundTrip(resource, resource, Concat(chunks));
  }

  /** The block size of the reads from a cache file. */
  const BUFFER_LENGTH := 8048

  /**
   * `if_cache_file_exists_send_to_client`: the lookup, and on a hit the body
   * read in blocks of at most BUFFER_LENGTH bytes, each block that is not
   * empty sent to the client in order.
   */
  method SendCached(resource: string, file: Option<string>) returns (r: Lookup, sent: seq<string>)
    ensures r == LookUp(resource, file)
    ensures r.Hit? ==> Concat(sent) == r.body
    ensures !r.Hit? ==> sent == []
    ensures forall i :: 0 <= i < |sent| ==> 0 < |sent[i]| <= BUFFER_LENGTH
  {
    sent := [];
    r := LookUp(resource, file);
    if !r.Hit? {
      return;
    }
    var body := r.body;
    var pos := 0;
    while pos < |body|
      invariant 0 <= pos <= |body|
      invariant Concat(sent) == body[..pos]
      invariant forall i :: 0 <= i < |sent| ==> 0 < |sent[i]| <= BUFFER_LENGTH
      decreases |body| - pos
    {
      var n := if |body| - pos < BUFFER_LENGTH then |body| - pos else BUFFER_LENGTH;
      var block := body[pos..pos + n];
      ConcatAppend(sent, block);
      assert body[..pos + n] == body[..pos] + block;
      sent := sent + [block];
      pos := pos + n;
    }
    assert body[..pos] == body;
  }
}
