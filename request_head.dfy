/**
 * The bytes the workers write: the GET head of a download cycle, the POST head
 * of an upload cycle and the 64 KiB upload payload. A head is a string of
 * characters; `Utf8Length` is the number of bytes the original sends for it.
 */
module RequestHead {
  import opened Decimal

  /** A port number as the URL library hands it out (16 bits). */
  type Port = p: nat | p < 0x1_0000

  const UserAgent: string := "bim/1.0"

  /** The 64-character pattern the upload payload repeats (written in two runs of 32). */
  const ChunkPattern: string := "0123456789AaBbCcDdEeFfGgHhIiJjKk" + "LlMmNnOoPpQqRrSsTtUuVvWwXxYyZz-="

  /** How many times the pattern is repeated in one upload payload. */
  const ChunkRepeats: nat := 1024

  predicate EndsWith(s: string, suffix: string) {
    |suffix| <= |s| && s[|s| - |suffix|..] == suffix
  }

  /** The `Host` header value: host, a colon, and the port in decimal. */
  function HostPort(host: string, port: Port): (r: string)
    ensures HostPortOf(r, host, port)
  {
    ParseShow(port);
    var r := host + ":" + Show(port);
    assert r[|host| + 1..] == Show(port);
    r
  }

  /** `r` is `host`, a colon, and digits that read back as `port`. */
  predicate HostPortOf(r: string, host: string, port: Port) {
    StartsWith(r, host + ":") && AllDigits(r[|host| + 1..]) && Parse(r[|host| + 1..]) == port
  }

  /** What follows the query of a GET head: protocol, `Host` and `User-Agent`, blank line. */
  function HeadTail(hostPort: string): string {
    " HTTP/1.1\r\nHost: " + hostPort + "\r\nUser-Agent: " + UserAgent + "\r\n\r\n"
  }

  /** The download request head: a GET whose query carries a cache-busting time and the sizes. */
  function DownloadHead(path: string, nowMs: nat, hostPort: string, chunkCount: nat, dataSize: nat): (h: string)
    ensures DeclaresDownloadSize(h, hostPort, chunkCount, dataSize)
  {
    ChainEndsWith("GET " + path + "?cors=true&r=" + Show(nowMs), "&ckSize=", Show(chunkCount), "&size=", Show(dataSize), HeadTail(hostPort));
    "GET " + path + "?cors=true&r=" + Show(nowMs) + "&ckSize=" + Show(chunkCount) + "&size=" + Show(dataSize)
    + HeadTail(hostPort)
  }

  /** The upload request head: a POST declaring a body of `dataSize` bytes. */
  function UploadHead(path: string, nowMs: nat, hostPort: string, dataSize: nat): (h: string)
    ensures DeclaresContentLength(h, dataSize)
  {
    var start := "POST " + path + "?r=" + Show(nowMs) + " HTTP/1.1\r\nHost: " + hostPort + "\r\nUser-Agent: " + UserAgent;
    ChainEndsWith(start, "", "", "\r\nContent-Length: ", Show(dataSize), "\r\n\r\n");
    "POST " + path + "?r=" + Show(nowMs) + " HTTP/1.1\r\nHost: " + hostPort + "\r\nUser-Agent: " + UserAgent
    + "\r\nContent-Length: " + Show(dataSize) + "\r\n\r\n"
  }

  /** The parts after `p` in a left-to-right concatenation form a suffix of it. */
  lemma ChainEndsWith(p: string, a: string, b: string, c: string, d: string, e: string)
    ensures EndsWith(p + a + b + c + d + e, a + b + c + d + e)
  {
    assert p + a + b + c + d + e == p + (a + b + c + d + e);
  }

  /** `s` starts with `prefix`. */
  predicate StartsWith(s: string, prefix: string) {
    |prefix| <= |s| && s[..|prefix|] == prefix
  }

  /**
   * A download head is one GET request line for the path, whose query
   * starts with the cache-busting time stamp `r=<nowMs>`.
   */
  lemma DownloadHeadShape(path: string, nowMs: nat, hostPort: string, chunkCount: nat, dataSize: nat)
    ensures StartsWith(DownloadHead(path, nowMs, hostPort, chunkCount, dataSize),
                       "GET " + path + "?cors=true&r=" + Show(nowMs) + "&ckSize=")
  {
  }

  /**
   * An upload head is one POST request line for the path with the time
   * stamp `r=<nowMs>`, then the `Host` and `User-Agent` lines.
   */
  lemma UploadHeadShape(path: string, nowMs: nat, hostPort: string, dataSize: nat)
    ensures StartsWith(UploadHead(path, nowMs, hostPort, dataSize),
                       "POST " + path + "?r=" + Show(nowMs) + " HTTP/1.1\r\nHost: " + hostPort + "\r\nUser-Agent: " + UserAgent + "\r\n")
  {
  }

  /** A download head starts with the GET request line's method, path and `cors` query flag. */
  lemma DownloadHeadRequestLine(path: string, nowMs: nat, hostPort: string, chunkCount: nat, dataSize: nat)
    ensures StartsWith(DownloadHead(path, nowMs, hostPort, chunkCount, dataSize), "GET " + path + "?cors=true&r=")
  {
  }

  /** An upload head starts with the POST request line's method and path. */
  lemma UploadHeadRequestLine(path: string, nowMs: nat, hostPort: string, dataSize: nat)
    ensures StartsWith(UploadHead(path, nowMs, hostPort, dataSize), "POST " + path + "?r=")
  {
  }

  /**
   * A decimal field closed on the right by a non-digit reads back one number
   * only: when `h` starts with `pre + Show(n) + post` and with
   * `pre + Show(m) + post`, then `n == m`.
   */
  lemma LeadingFieldUnique(h: string, pre: string, post: string, n: nat, m: nat)
    requires |post| > 0 && !IsDigit(post[0])
    requires StartsWith(h, pre + Show(n) + post)
    requires StartsWith(h, pre + Show(m) + post)
    ensures n == m
  {
    if |Show(n)| <= |Show(m)| {
      LeadingFieldUniqueOrdered(h, pre, post, n, m);
    } else {
      LeadingFieldUniqueOrdered(h, pre, post, m, n);
    }
  }

  lemma LeadingFieldUniqueOrdered(h: string, pre: string, post: string, n: nat, m: nat)
    requires |post| > 0 && !IsDigit(post[0])
    requires StartsWith(h, pre + Show(n) + post)
    requires StartsWith(h, pre + Show(m) + post)
    requires |Show(n)| <= |Show(m)|
    ensures n == m
  {
    var a, b := Show(n), Show(m);
    // Just after the digits of `a` sits the non-digit that starts `post`;
    // were `b` longer, that position would fall among the digits of `b`.
    assert h[|pre| + |a|] == post[0];
    forall q | |pre| <= q < |pre| + |b|
      ensures IsDigit(h[q])
    {
      assert h[q] == b[q - |pre|];
    }
    assert |a| == |b|;
    assert a == h[|pre|..|pre| + |a|] == b;
    ShowInjective(n, m);
  }


  /** `h` ends with a `Content-Length` header declaring `n` bytes, then the blank line. */
  predicate DeclaresContentLength(h: string, n: nat) {
    EndsWith(h, "\r\nContent-Length: " + Show(n) + "\r\n\r\n")
  }

  /** `h` is a GET head whose query asks for `chunkCount` chunks totalling `n` bytes. */
  predicate DeclaresDownloadSize(h: string, hostPort: string, chunkCount: nat, n: nat) {
    EndsWith(h, "&ckSize=" + Show(chunkCount) + "&size=" + Show(n) + HeadTail(hostPort))
  }

  /** `s` repeated `n` times. */
  function Repeat(s: string, n: nat): (r: string)
    ensures |r| == |s| * n
  {
    if n == 0 then [] else s + Repeat(s, n - 1)
  }

  /** The upload payload, written once per chunk: 65536 characters. */
  function RequestChunk(): (r: string)
    ensures |r| == 65536
  {
    Repeat(ChunkPattern, ChunkRepeats)
  }

  /** Character `k` of the `q`-th copy in a repetition is character `k` of the pattern. */
  lemma {:induction false} RepeatAt(s: string, n: nat, q: nat, k: nat)
    requires q < n && k < |s|
    ensures |s| * q + k < |Repeat(s, n)|
    ensures Repeat(s, n)[|s| * q + k] == s[k]
  {
    if q > 0 {
      RepeatAt(s, n - 1, q - 1, k);
      assert |s| * q + k == |s| + (|s| * (q - 1) + k);
    }
  }

  /** The upload payload is exactly 65536 bytes of the printable pattern. */
  lemma RequestChunkShape()
    ensures |RequestChunk()| == 65536
    ensures forall i :: 0 <= i < |RequestChunk()| ==> RequestChunk()[i] == ChunkPattern[i % 64]
  {
    assert |ChunkPattern| == 64;
    forall i | 0 <= i < |RequestChunk()|
      ensures RequestChunk()[i] == ChunkPattern[i % 64]
    {
      RepeatAt(ChunkPattern, ChunkRepeats, i / 64, i % 64);
    }
  }

  /** The 64-character pattern is ASCII. */
  lemma PatternAscii()
    ensures IsAscii(ChunkPattern)
  {
    AsciiConcat("0123456789AaBbCcDdEeFfGgHhIiJjKk", "LlMmNnOoPpQqRrSsTtUuVvWwXxYyZz-=");
  }

  /** Repeating ASCII text gives ASCII text. */
  lemma {:induction false} RepeatAscii(s: string, n: nat)
    requires IsAscii(s)
    ensures IsAscii(Repeat(s, n))
  {
    if n > 0 {
      RepeatAscii(s, n - 1);
      AsciiConcat(s, Repeat(s, n - 1));
    }
  }

  /** The upload payload is ASCII, so its 65536 characters are 65536 bytes on the wire. */
  lemma RequestChunkBytes()
    ensures IsAscii(RequestChunk()) && Utf8Length(RequestChunk()) == 65536
  {
    PatternAscii();
    RepeatAscii(ChunkPattern, ChunkRepeats);
    AsciiUtf8Length(RequestChunk());
  }

  /** The upload head declares exactly the body size it was built with. */
  lemma UploadHeadDeclaresLength(path: string, nowMs: nat, hostPort: string, dataSize: nat, n: nat)
    ensures DeclaresContentLength(UploadHead(path, nowMs, hostPort, dataSize), n) <==> n == dataSize
  {
    var h := UploadHead(path, nowMs, hostPort, dataSize);
    if DeclaresContentLength(h, n) {
      NumberFieldUnique(h, "\r\nContent-Length: ", "\r\n\r\n", n, dataSize);
    }
  }

  /** The download head asks for exactly the size and chunk count it was built with. */
  lemma DownloadHeadDeclaresSize(path: string, nowMs: nat, hostPort: string, chunkCount: nat, dataSize: nat, n: nat)
    ensures DeclaresDownloadSize(DownloadHead(path, nowMs, hostPort, chunkCount, dataSize), hostPort, chunkCount, n)
        <==> n == dataSize
  {
    var h := DownloadHead(path, nowMs, hostPort, chunkCount, dataSize);
    var field := "&ckSize=" + Show(chunkCount) + "&size=";
    if DeclaresDownloadSize(h, hostPort, chunkCount, n) {
      assert field[|field| - 1] == '=';
      NumberFieldUnique(h, field, HeadTail(hostPort), n, dataSize);
    }
  }

  /**
   * A decimal field closed on the left by a non-digit reads back one number
   * only: when `h` ends with `pre + Show(n) + post` and with
   * `pre + Show(m) + post`, then `n == m`.
   */
  lemma NumberFieldUnique(h: string, pre: string, post: string, n: nat, m: nat)
    requires |pre| > 0 && !IsDigit(pre[|pre| - 1])
    requires EndsWith(h, pre + Show(n) + post)
    requires EndsWith(h, pre + Show(m) + post)
    ensures n == m
  {
    if |Show(n)| <= |Show(m)| {
      NumberFieldUniqueOrdered(h, pre, post, n, m);
    } else {
      NumberFieldUniqueOrdered(h, pre, post, m, n);
    }
  }

  lemma NumberFieldUniqueOrdered(h: string, pre: string, post: string, n: nat, m: nat)
    requires |pre| > 0 && !IsDigit(pre[|pre| - 1])
    requires EndsWith(h, pre + Show(n) + post)
    requires EndsWith(h, pre + Show(m) + post)
    requires |Show(n)| <= |Show(m)|
    ensures n == m
  {
    var a, b := Show(n), Show(m);
    var x, y := pre + a + post, pre + b + post;
    // Just before the digits of `a` sits the non-digit that ends `pre`; were `b`
    // longer, that position would fall among the digits of `b`.
    CharBeforeField(h, pre, a, post);
    ShowDigits(m);
    FieldIsDigits(h, pre, b, post);
    assert |a| == |b|;
    SuffixOfSuffix(h, x, y);
    assert x == y;
    assert a == x[|pre|..|pre| + |a|] == b;
    ShowInjective(n, m);
  }

  lemma CharBeforeField(h: string, pre: string, field: string, post: string)
    requires |pre| > 0 && EndsWith(h, pre + field + post)
    ensures h[|h| - |post| - |field| - 1] == pre[|pre| - 1]
  {
  }

  lemma FieldIsDigits(h: string, pre: string, field: string, post: string)
    requires AllDigits(field) && EndsWith(h, pre + field + post)
    ensures forall q :: |h| - |post| - |field| <= q < |h| - |post| ==> IsDigit(h[q])
  {
  }

  /** Of two suffixes of one string, the shorter is a suffix of the longer. */
  lemma SuffixOfSuffix(h: string, x: string, y: string)
    requires EndsWith(h, x) && EndsWith(h, y) && |x| <= |y|
    ensures EndsWith(y, x)
  {
  }

  /** Every character of `s` is below 128, so UTF-8 writes each in one byte. */
  predicate IsAscii(s: string) {
    forall i :: 0 <= i < |s| ==> s[i] as int < 0x80
  }

  /** Bytes UTF-8 uses for one character. */
  function Utf8Width(c: char): (w: nat)
    ensures 1 <= w <= 4
    ensures w == 1 <==> c as int < 0x80
  {
    if c as int < 0x80 then 1
    else if c as int < 0x800 then 2
    else if c as int < 0x1_0000 then 3
    else 4
  }

  /** The length of the UTF-8 encoding of `s`: what `into_bytes().len()` gives for it. */
  function Utf8Length(s: string): (n: nat)
    ensures n >= |s|
  {
    if s == [] then 0 else Utf8Length(s[..|s| - 1]) + Utf8Width(s[|s| - 1])
  }

  /** A string's byte length is its character count exactly when it is ASCII. */
  lemma {:induction false} AsciiUtf8Length(s: string)
    ensures Utf8Length(s) == |s| <==> IsAscii(s)
    decreases |s|
  {
    if s != [] {
      var p := s[..|s| - 1];
      AsciiUtf8Length(p);
      assert IsAscii(s) <==> IsAscii(p) && s[|s| - 1] as int < 0x80 by {
        if IsAscii(p) && s[|s| - 1] as int < 0x80 {
          forall i | 0 <= i < |s| ensures s[i] as int < 0x80 {
            if i < |s| - 1 { assert s[i] == p[i]; }
          }
        }
      }
    }
  }

  /** A concatenation is ASCII exactly when both parts are. */
  lemma AsciiConcat(a: string, b: string)
    ensures IsAscii(a + b) <==> IsAscii(a) && IsAscii(b)
  {
    if IsAscii(a + b) {
      forall i | 0 <= i < |a| ensures a[i] as int < 0x80 {
        assert a[i] == (a + b)[i];
      }
      forall i | 0 <= i < |b| ensures b[i] as int < 0x80 {
        assert b[i] == (a + b)[|a| + i];
      }
    }
  }

  /** Three strings concatenated are ASCII exactly when each is. */
  lemma AsciiConcat3(a: string, b: string, c: string)
    ensures IsAscii(a + b + c) <==> IsAscii(a) && IsAscii(b) && IsAscii(c)
  {
    AsciiConcat(a, b);
    AsciiConcat(a + b, c);
  }

  /** The `Host` value is ASCII exactly when the host is: the colon and the port digits are. */
  lemma HostPortAscii(host: string, port: Port)
    ensures IsAscii(HostPort(host, port)) <==> IsAscii(host)
  {
    var digits := Show(port);
    assert IsAscii(digits);
    AsciiConcat3(host, ":", digits);
  }

  /** The part after the query is ASCII exactly when the `Host` value is. */
  lemma HeadTailAscii(hostPort: string)
    ensures IsAscii(HeadTail(hostPort)) <==> IsAscii(hostPort)
  {
    var tail := " HTTP/1.1\r\nHost: " + hostPort;
    AsciiConcat(" HTTP/1.1\r\nHost: ", hostPort);
    AsciiConcat(tail, "\r\nUser-Agent: ");
    tail := tail + "\r\nUser-Agent: ";
    AsciiConcat(tail, UserAgent);
    tail := tail + UserAgent;
    AsciiConcat(tail, "\r\n\r\n");
  }

  /** A GET head is ASCII exactly when its path and `Host` value are. */
  lemma DownloadHeadAscii(path: string, nowMs: nat, hostPort: string, chunkCount: nat, dataSize: nat)
    ensures IsAscii(DownloadHead(path, nowMs, hostPort, chunkCount, dataSize)) <==> IsAscii(path) && IsAscii(hostPort)
  {
    // Follow the head's concatenations from the left, one part at a time.
    var h := "GET " + path;
    AsciiConcat("GET ", path);
    AsciiConcat(h, "?cors=true&r=");
    h := h + "?cors=true&r=";
    AsciiConcat(h, Show(nowMs));
    h := h + Show(nowMs);
    AsciiConcat(h, "&ckSize=");
    h := h + "&ckSize=";
    AsciiConcat(h, Show(chunkCount));
    h := h + Show(chunkCount);
    AsciiConcat(h, "&size=");
    h := h + "&size=";
    AsciiConcat(h, Show(dataSize));
    h := h + Show(dataSize);
    HeadTailAscii(hostPort);
    AsciiConcat(h, HeadTail(hostPort));
  }

  /** The POST request line up to the `Host` value is ASCII exactly when the path is. */
  lemma UploadLineAscii(path: string, nowMs: nat)
    ensures IsAscii("POST " + path + "?r=" + Show(nowMs) + " HTTP/1.1\r\nHost: ") <==> IsAscii(path)
  {
    var h := "POST " + path;
    AsciiConcat("POST ", path);
    AsciiConcat(h, "?r=");
    h := h + "?r=";
    AsciiConcat(h, Show(nowMs));
    h := h + Show(nowMs);
    AsciiConcat(h, " HTTP/1.1\r\nHost: ");
  }

  /** A POST head is ASCII exactly when its path and `Host` value are. */
  lemma UploadHeadAscii(path: string, nowMs: nat, hostPort: string, dataSize: nat)
    ensures IsAscii(UploadHead(path, nowMs, hostPort, dataSize)) <==> IsAscii(path) && IsAscii(hostPort)
  {
    // Follow the head's concatenations from the left, one part at a time.
    var h := "POST " + path + "?r=" + Show(nowMs) + " HTTP/1.1\r\nHost: ";
    UploadLineAscii(path, nowMs);
    AsciiConcat(h, hostPort);
    h := h + hostPort;
    AsciiConcat(h, "\r\nUser-Agent: ");
    h := h + "\r\nUser-Agent: ";
    AsciiConcat(h, UserAgent);
    h := h + UserAgent;
    AsciiConcat(h, "\r\nContent-Length: ");
    h := h + "\r\nContent-Length: ";
    AsciiConcat(h, Show(dataSize));
    h := h + Show(dataSize);
    AsciiConcat(h, "\r\n\r\n");
  }
}
