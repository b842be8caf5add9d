/**
 * JdbcDriver, the HFQL JDBC driver: which URLs it takes, how it finds the server
 * URL inside one, its version, and the static load/unload switch that registers the
 * single driver instance with java.sql.DriverManager.
 */
module Jdbc {
  import opened Wrappers
  import opened JavaStrings

  const URL_PREFIX: string := "jdbc:hapifhir:"

  /** acceptsURL: the URL starts with the driver's prefix. */
  predicate AcceptsUrl(url: string)
  {
    URL_PREFIX <= url
  }

  /** What String.substring throws when the URL is shorter than the prefix. */
  datatype Exception = StringIndexOutOfBoundsException

  /** The prefix is ASCII, so it is one code unit per character. */
  lemma PrefixUnits()
    ensures |Utf16(URL_PREFIX)| == |URL_PREFIX|
  {
    Utf16Bmp(URL_PREFIX);
  }

  /**
   * The server URL connect extracts: String.substring drops the first |URL_PREFIX|
   * UTF-16 code units, so the result is a sequence of code units (it may begin with
   * the low half of a surrogate pair). connect does not check the prefix first.
   */
  function ServerUrl(url: string): (r: Result<seq<int>, Exception>)
    ensures r.Failure? <==> |Utf16(url)| < |URL_PREFIX|
    ensures r.Success? ==> |r.value| == |Utf16(url)| - |URL_PREFIX|
    ensures r.Success? ==> Utf16(url) == Utf16(url)[..|URL_PREFIX|] + r.value
  {
    var units := Utf16(url);
    if |units| < |URL_PREFIX| then Failure(StringIndexOutOfBoundsException)
    else Success(units[|URL_PREFIX|..])
  }

  /**
   * An accepted URL is the prefix followed by the server URL connect extracts, and
   * that server URL is the code units of the characters after the prefix.
   */
  lemma AcceptedUrlSplits(url: string)
    requires AcceptsUrl(url)
    ensures ServerUrl(url).Success?
    ensures ServerUrl(url).value == Utf16(url[|URL_PREFIX|..])
    ensures Utf16(URL_PREFIX) + ServerUrl(url).value == Utf16(url)
  {
    assert url == URL_PREFIX + url[|URL_PREFIX|..];
    Utf16Append(URL_PREFIX, url[|URL_PREFIX|..]);
    PrefixUnits();
  }

  /** Prefixing any server URL gives an accepted URL that connect takes apart again. */
  lemma PrefixedUrlRoundTrip(serverUrl: string)
    ensures AcceptsUrl(URL_PREFIX + serverUrl)
    ensures ServerUrl(URL_PREFIX + serverUrl) == Success(Utf16(serverUrl))
  {
    assert (URL_PREFIX + serverUrl)[..|URL_PREFIX|] == URL_PREFIX;
    assert (URL_PREFIX + serverUrl)[|URL_PREFIX|..] == serverUrl;
    AcceptedUrlSplits(URL_PREFIX + serverUrl);
  }

  /** acceptsURL holds exactly for URLs made by prefixing some server URL. */
  lemma AcceptsExactlyPrefixed(url: string)
    ensures AcceptsUrl(url) <==> |url| >= |URL_PREFIX| && URL_PREFIX + url[|URL_PREFIX|..] == url
  {
    if |url| >= |URL_PREFIX| {
      assert (URL_PREFIX + url[|URL_PREFIX|..])[..|URL_PREFIX|] == URL_PREFIX;
    }
  }

  /** A URL whose first characters fill exactly the prefix length in code units is cut right after them. */
  lemma CutAfter(head: string, rest: string)
    requires |Utf16(head)| == |URL_PREFIX|
    ensures ServerUrl(head + rest) == Success(Utf16(rest))
  {
    Utf16Append(head, rest);
  }

  /** Fourteen characters below U+10000 are exactly what connect cuts off. */
  lemma BmpCut(head: string, rest: string)
    requires |head| == |URL_PREFIX|
    requires forall i :: 0 <= i < |head| ==> head[i] as int < 0x10000
    ensures ServerUrl(head + rest) == Success(Utf16(rest))
  {
    Utf16Bmp(head);
    CutAfter(head, rest);
  }

  /** connect slices any long-enough URL, even one acceptsURL refuses. */
  lemma ConnectIgnoresPrefix(rest: string)
    ensures !AcceptsUrl("jdbc:postgresq" + rest)
    ensures ServerUrl("jdbc:postgresq" + rest) == Success(Utf16(rest))
  {
    assert ("jdbc:postgresq" + rest)[13] != URL_PREFIX[13];
    BmpCut("jdbc:postgresq", rest);
  }

  /**
   * The cut counts code units, not characters: seven characters from U+10000 up fill
   * the fourteen units of the prefix length, so connect keeps exactly what follows.
   */
  lemma SupplementaryUrlCut(c: char, rest: string)
    requires c as int >= 0x10000
    ensures !AcceptsUrl([c, c, c, c, c, c, c] + rest)
    ensures ServerUrl([c, c, c, c, c, c, c] + rest) == Success(Utf16(rest))
  {
    var head := [c, c, c, c, c, c, c];
    assert (head + rest)[0] != URL_PREFIX[0];
    Utf16Supplementary(head);
    CutAfter(head, rest);
  }

  /** A URL whose code units run one past the prefix length into t keeps the rest of t. */
  lemma CutOneIn(url: string, h: seq<int>, t: seq<int>)
    requires Utf16(url) == h + t && |h| + 1 == |URL_PREFIX| && |t| >= 1
    ensures ServerUrl(url) == Success(t[1..])
  {
    assert (h + t)[|h| + 1..] == t[1..];
  }

  /** Dropping the first of two units leaves the second in front. */
  lemma DropHighUnit(units: seq<int>, r: seq<int>)
    requires |units| == 2
    ensures (units + r)[1..] == [units[1]] + r
  {
    assert (units + r)[1..] == units[1..] + r;
  }

  /**
   * A character from U+10000 up that straddles the cut leaves its low surrogate as
   * the first unit of the server URL.
   */
  lemma SplitSurrogateUrl(head: string, c: char, rest: string)
    requires |head| == |URL_PREFIX| - 1
    requires forall i :: 0 <= i < |head| ==> head[i] as int < 0x10000
    requires c as int >= 0x10000
    ensures ServerUrl(head + [c] + rest).Success?
    ensures ServerUrl(head + [c] + rest).value == [CodeUnits(c)[1]] + Utf16(rest)
    ensures 0xDC00 <= ServerUrl(head + [c] + rest).value[0] < 0xE000
  {
    var tail := [c] + rest;
    assert head + [c] + rest == head + tail;
    assert tail[0] == c && tail[1..] == rest;
    var units, r := CodeUnits(c), Utf16(rest);
    var t := Utf16(tail);
    assert t == units + r;
    DropHighUnit(units, r);
    Utf16Bmp(head);
    Utf16Append(head, tail);
    CutOneIn(head + tail, Utf16(head), t);
  }

  /** The driver reports version 1.0 and does not claim JDBC compliance. */
  function GetMajorVersion(): int { 1 }
  function GetMinorVersion(): int { 0 }
  predicate JdbcCompliant() { false }

  class JdbcDriver {
    constructor ()
    {
    }
  }

  /** A call the driver makes into DriverManager. */
  datatype RegistryCall = Register | Deregister

  /** Calls into DriverManager alternate: register, deregister, register, ... */
  ghost predicate Alternates(log: seq<RegistryCall>)
  {
    forall i :: 0 <= i < |log| ==> log[i] == if i % 2 == 0 then Register else Deregister
  }

  /**
   * The class's static state: the single INSTANCE and the ourRegistered flag, with
   * DriverManager's side kept as ghost state: the calls made to it, and whether it
   * holds the driver.
   */
  class DriverStatics {
    const INSTANCE: JdbcDriver
    var ourRegistered: bool
    ghost var registryCalls: seq<RegistryCall>
    ghost var inDriverManager: bool

    /** The flag says whether the last registry call was a registration. */
    ghost predicate Valid()
      reads this
    {
      Alternates(registryCalls) && (ourRegistered <==> |registryCalls| % 2 == 1)
    }

    /**
     * The static initializer: INSTANCE is created and load() runs once.
     * registryThrows says whether DriverManager throws on that call.
     */
    constructor (registryThrows: bool)
      ensures Valid() && ourRegistered
      ensures registryCalls == [Register]
      ensures inDriverManager == !registryThrows
    {
      INSTANCE := new JdbcDriver();
      ourRegistered := true;
      registryCalls := [Register];
      inDriverManager := !registryThrows;
    }

    /**
     * load: registers INSTANCE only when the flag is down, raising the flag before
     * the call, so a call that throws (the exception is logged and swallowed) still
     * leaves the flag up. Always returns INSTANCE.
     */
    method Load(registryThrows: bool) returns (driver: JdbcDriver)
      requires Valid()
      modifies this
      ensures Valid() && ourRegistered
      ensures driver == INSTANCE
      ensures registryCalls == old(registryCalls) + (if old(ourRegistered) then [] else [Register])
      ensures inDriverManager == if !old(ourRegistered) && !registryThrows then true else old(inDriverManager)
    {
      if !ourRegistered {
        ourRegistered := true;
        registryCalls := registryCalls + [Register];
        if !registryThrows {
          inDriverManager := true;
        }
      }
      driver := INSTANCE;
    }

    /**
     * unload: deregisters INSTANCE only when the flag is up, lowering the flag before
     * the call; a later load registers again.
     */
    method Unload(registryThrows: bool)
      requires Valid()
      modifies this
      ensures Valid() && !ourRegistered
      ensures registryCalls == old(registryCalls) + (if old(ourRegistered) then [Deregister] else [])
      ensures inDriverManager == if old(ourRegistered) && !registryThrows then false else old(inDriverManager)
    {
      if ourRegistered {
        ourRegistered := false;
        registryCalls := registryCalls + [Deregister];
        if !registryThrows {
          inDriverManager := false;
        }
      }
    }
  }

  /**
   * Between two deregistrations there is exactly one registration: however load and
   * unload interleave, the driver is registered at most once more than it is
   * deregistered.
   */
  lemma {:induction false} AlternationCounts(log: seq<RegistryCall>)
    requires Alternates(log)
    ensures Count(log, Register) == Count(log, Deregister) + |log| % 2
    decreases |log|
  {
    if log != [] {
      var log' := log[..|log| - 1];
      assert Alternates(log') by {
        forall i | 0 <= i < |log'| ensures log'[i] == if i % 2 == 0 then Register else Deregister {
          assert log'[i] == log[i];
        }
      }
      AlternationCounts(log');
    }
  }

  /** How many times c occurs in log. */
  function Count(log: seq<RegistryCall>, c: RegistryCall): (n: nat)
    ensures n <= |log|
  {
    if log == [] then 0
    else Count(log[..|log| - 1], c) + (if log[|log| - 1] == c then 1 else 0)
  }
}
