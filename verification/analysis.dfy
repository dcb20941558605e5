/**
 * What the orchestrator makes of the Spectral Analyzer's output: the final
 * value `leer_datos_p3` reads in the sequential protocol, the latest
 * temperature the concurrent protocol extracts from each chunk, and the
 * reactive shield rule that turns that temperature into an argument for the
 * Shield Control workload.
 */
module Analysis {
  import opened Wrappers
  import opened CText
  import opened Tokens

  /** `leer_datos_p3` reads into a 128-byte buffer, keeping room for the terminator. */
  const FinalReadLimit: nat := 127

  /** The concurrent loop reads into a 1024-byte buffer, keeping room for the terminator. */
  const ChunkReadLimit: nat := 1023

  /** What one `read` of at most `limit` bytes takes from the bytes waiting in a pipe. */
  function ReadChunk(pending: string, limit: nat): (chunk: string)
    ensures chunk <= pending
    ensures |chunk| == if |pending| < limit then |pending| else limit
  {
    if |pending| < limit then pending else pending[..limit]
  }

  /**
   * `leer_datos_p3`: no bytes yield 0; otherwise one trailing newline is
   * dropped and `atoi` converts the rest.
   */
  function LeerDatosP3(pending: string): (v: int)
    ensures pending == [] ==> v == 0
    ensures v == Atoi(ReadChunk(pending, FinalReadLimit))
  {
    var chunk := ReadChunk(pending, FinalReadLimit);
    if chunk == [] then 0
    else
      var text := if chunk[|chunk| - 1] == '\n' then chunk[..|chunk| - 1] else chunk;
      assert Atoi(text) == Atoi(chunk) by {
        if chunk[|chunk| - 1] == '\n' {
          StripNewlineKeepsValue(chunk);
        }
      }
      Atoi(text)
  }

  /** Dropping a final newline does not change what `atoi` reads. */
  lemma StripNewlineKeepsValue(chunk: string)
    requires chunk != [] && chunk[|chunk| - 1] == '\n'
    ensures Atoi(chunk[..|chunk| - 1]) == Atoi(chunk)
  {
    assert chunk == chunk[..|chunk| - 1] + ['\n'];
    AtoiIgnoresTrailingNonDigit(chunk[..|chunk| - 1], '\n');
  }

  /**
   * An analyzer that prints its result with `printf("%d\n", n)` is read
   * back exactly, whatever follows in the pipe, as long as its digits fit
   * the 127 bytes read, even when the newline itself is cut off.
   */
  lemma {:induction false} LeerDatosP3RoundTrip(n: int, rest: string)
    requires |Decimal(n)| <= FinalReadLimit
    ensures LeerDatosP3(Decimal(n) + "\n" + rest) == n
  {
    var s := Decimal(n) + "\n" + rest;
    var chunk := ReadChunk(s, FinalReadLimit);
    var tail := chunk[|Decimal(n)|..];
    assert chunk == Decimal(n) + tail;
    if |Decimal(n)| < FinalReadLimit {
      assert tail[0] == '\n';
    } else {
      // the digits fill the buffer and the newline is cut off
      assert tail == [];
    }
    AtoiOfDecimal(n, tail);
  }

  /**
   * The reading after one quantum of the analyzer: a chunk of its output is
   * read, cut at its first NUL as a C string, split on " \n\r\t"; the last
   * token, if any, is converted with `atoi`; otherwise the previous reading
   * stays.
   */
  function NextReading(last: int, pending: string): int
  {
    var chunk := ReadChunk(pending, ChunkReadLimit);
    if chunk == [] then last
    else
      match LastToken(CString(chunk))
      case None => last
      case Some(t) => Atoi(t)
  }

  /**
   * The reading stays when the chunk holds nothing but delimiters, and is
   * otherwise the value of the chunk's last maximal run of non-delimiters.
   */
  lemma NextReadingSpec(last: int, pending: string)
    ensures var text := CString(ReadChunk(pending, ChunkReadLimit));
      && (AllDelims(text) ==> NextReading(last, pending) == last)
      && (forall i, j :: LastRun(text, i, j) ==> NextReading(last, pending) == Atoi(text[i..j]))
  {
    LastTokenSpec(CString(ReadChunk(pending, ChunkReadLimit)));
  }

  /** In a text ending with a line of digits, those digits are the last run. */
  lemma DigitLineIsLastRun(before: string, d: string)
    requires d != [] && AllDigits(d)
    requires before == [] || IsDelim(before[|before| - 1])
    ensures var s := before + d + "\n";
      LastRun(s, |before|, |before| + |d|) && s[|before|..|before| + |d|] == d
  {
    var s := before + d + "\n";
    forall k | |before| <= k < |before| + |d| ensures !IsDelim(s[k]) {
      assert s[k] == d[k - |before|];
      assert IsDigit(d[k - |before|]);
    }
    assert s[|s| - 1] == '\n';
    assert s[|before|..|before| + |d|] == d;
    if before != [] {
      assert s[|before| - 1] == before[|before| - 1];
    }
  }

  /**
   * A chunk ending with the line "n\n" for a natural n makes n the reading,
   * provided the text before it has no NUL, is empty or ends in a delimiter
   * (so the digits form a token of their own), and the whole chunk fits the
   * 1023-byte read.
   */
  lemma {:induction false} NextReadingOfLastLine(last: int, before: string, n: nat)
    requires |before| + |NatDigits(n)| < ChunkReadLimit
    requires '\0' !in before
    requires before == [] || IsDelim(before[|before| - 1])
    ensures NextReading(last, before + NatDigits(n) + "\n") == n
  {
    var s := before + NatDigits(n) + "\n";
    var d := NatDigits(n);
    assert ReadChunk(s, ChunkReadLimit) == s;
    CStringWhole(s);
    DigitLineIsLastRun(before, d);
    NextReadingSpec(last, s);
    DigitsValueOfNatDigits(n);
    AtoiOfDigits(d, []);
    assert d + [] == d;
  }

  /**
   * The shield rule: above 90 the shield is switched on ("1"); below 60,
   * except for the sentinel -1 that means "no reading yet", it is switched
   * off ("0"); from 60 to 90, and for -1, it is not launched.
   */
  function ShieldArg(reading: int): (arg: Option<string>)
    ensures arg == Some("1") <==> reading > 90
    ensures arg == Some("0") <==> reading < 60 && reading != -1
    ensures arg.None? <==> 60 <= reading <= 90 || reading == -1
  {
    if reading > 90 then Some("1")
    else if reading < 60 && reading != -1 then Some("0")
    else None
  }
}
