/**
 The option records of the two ends as the objects that `parse_options`
 (session_options.c) and `handle_oack_packet` (client.c) update in place.
 */
module OptionRecords {
  import opened BlockNumbers
  import opened CStrings
  import opened Options
  import opened Packets
  import opened Requests
  import opened Session
  import opened Negotiation
  import opened OptionText
  import opened ServerLoop

  lemma AsksFirst(p: Pair, ps: seq<Pair>)
    ensures AsksAdaptive([p] + ps) <==> IsAdaptive(p) || AsksAdaptive(ps)
  {
    hide IsAdaptive;
    var all := [p] + ps;
    assert all[0] == p;
    if AsksAdaptive(ps) {
      var i :| 0 <= i < |ps| && IsAdaptive(ps[i]);
      assert all[i + 1] == ps[i];
    }
    if AsksAdaptive(all) && !IsAdaptive(p) {
      var i :| 0 <= i < |all| && IsAdaptive(all[i]);
      assert ps[i - 1] == all[i];
    }
  }

  lemma NothingAsked()
    ensures !AsksAdaptive([])
  {
  }

  /** The second walk over the options, which both ends make. */
  method FindAdaptive(values: string) returns (found: bool)
    ensures found <==> AsksAdaptive(DecodePairs(values, 0))
  {
    hide AsksAdaptive, Token, IsAdaptive;
    var option := 0;
    while option + 1 < |values|
      invariant AsksAdaptive(DecodePairs(values, option)) <==> AsksAdaptive(DecodePairs(values, 0))
      decreases |values| - option
    {
      var name := Token(values, option);
      var val := Token(values, option + |name| + 1);
      assert DecodePairs(values, option)
          == [(name, val)] + DecodePairs(values, option + |name| + 1 + |val| + 1);
      AsksFirst((name, val), DecodePairs(values, option + |name| + 1 + |val| + 1));
      if IsAdaptive((name, val)) {
        return true;
      }
      option := option + |name| + 1 + |val| + 1;
    }
    NothingAsked();
    return false;
  }

  /** A text at the beginning of a buffer of `n` characters that is otherwise zero. */
  function Padded(text: string, n: nat): (s: string)
    requires |text| <= n
    ensures |s| == n
  {
    text + seq(n - |text|, _ => NUL)
  }

  /** Reading a string from the buffer or from the text makes no difference. */
  lemma TokenPadded(text: string, n: nat, p: nat)
    requires |text| <= n
    ensures Token(Padded(text, n), p) == Token(text, p)
  {
    var s := Padded(text, n);
    if p <= |text| {
      var k := StrLen(text, p);
      assert s[p..p + k] == text[p..p + k];
      StrLenIs(s, p, k);
    } else if p <= n {
      StrLenIs(s, p, 0);
    }
  }

  lemma OverwritePadded(text: string, n: nat, p: nat, d: string)
    requires |text| <= n && p <= |text| && p + |d| + 1 <= n
    ensures |Overwrite(text, p, d)| <= n
    ensures Padded(Overwrite(text, p, d), n)
         == Padded(text, n)[..p] + d + [NUL] + Padded(text, n)[p + |d| + 1..]
  {
    var r, l, q := Overwrite(text, p, d), Padded(text, n), p + |d| + 1;
    assert l[..p] == text[..p];
    if q <= |text| {
      assert l[q..] == text[q..] + seq(n - |text|, _ => NUL);
    } else {
      assert l[q..] == seq(n - q, _ => NUL);
    }
  }

  /** A size that is printed into the text ends within the buffer. */
  predicate Fits(env: Env, text: string, capacity: nat)
  {
    var refs := Recognized(env, text);
    PrintsInText(env, text, refs) ==> refs[TSIZE].pos + |Print(env.fileSize.value)| + 1 <= capacity
  }

  lemma ApplyStep(env: Env, s: Server, o: nat)
    requires |s.recognized| == TOTAL && o < TOTAL
    ensures ApplyFirst(env, s, o + 1) == Apply(env, ApplyFirst(env, s, o), o)
    ensures ApplyFirst(env, s, 0) == s
  {
    hide Apply;
  }

  /** `struct session_options` with the session fields it writes through.
      `storage` is the server's copy of the option text, followed by zeros. */
  class SessionOptions {
    const storage: array<char>
    const size: nat
    const recognized: array<Ref>
    var required: bool
    var blockSize: uint16
    var windowSize: uint16
    var timeout: uint8
    var adaptive: bool
    ghost var text: string

    ghost predicate Valid()
      reads this, storage
    {
      && recognized.Length == TOTAL && size <= storage.Length
      && |text| <= storage.Length && storage[..] == Padded(text, storage.Length)
    }

    ghost function Value(): (s: Server)
      reads this, storage, recognized
      requires Valid()
      ensures |s.recognized| == TOTAL
    {
      Server(text, recognized[..], required, blockSize, windowSize, timeout, adaptive)
    }

    /** The option text has been copied into a buffer of `capacity` characters. */
    constructor (env: Env, values: string, capacity: nat)
      requires |values| <= capacity
      ensures Valid() && fresh(storage) && fresh(recognized) && storage.Length == capacity && size == |values|
      ensures Value() == InitialServer(env, values)
    {
      storage := new char[capacity](i => if 0 <= i < |values| then values[i] else NUL);
      size := |values|;
      recognized := new Ref[TOTAL](_ => Missing);
      required, blockSize, windowSize, timeout, adaptive := false, DEFAULT_BLKSIZE, DEFAULT_WINDOW, env.timeout, false;
      text := values;
    }

    /** `session_options_get_read_type`: a listing is asked for. */
    method IsListing(env: Env) returns (listing: bool)
      requires Valid() && |text| == size && Value() == InitialServer(env, text)
      modifies recognized
      ensures Valid() && Value() == InitialServer(env, text).(recognized := Locate(text, 0, NOWHERE))
      ensures listing <==> ParsePairs(NONE, DecodePairs(text, 0))[READ_TYPE].Active?
    {
      hide ParsePairs, DecodePairs, Locate, Token;
      assert storage[..size] == text;
      ParseOptions(recognized, storage[..size]);
      LocateReads(text, 0, NOWHERE);
      NothingRead(text);
      ReadAt(text, recognized[..], READ_TYPE);
      listing := !recognized[READ_TYPE].Missing?;
    }

    /** `parse_options`. For a read request the options may have been parsed
        once already. A size printed into the text must end within the buffer. */
    method Parse(env: Env)
      requires Valid() && |text| == size
      requires Value() == InitialServer(env, text)
            || Value() == InitialServer(env, text).(recognized := Locate(text, 0, NOWHERE))
      requires Fits(env, text, storage.Length)
      modifies this, storage, recognized
      ensures Valid() && Value() == ParseRequested(env, old(text))
    {
      hide Locate, DecodePairs, AsksAdaptive, Apply, Padded, Fits;
      ghost var values := text;
      LocateTwice(values, NOWHERE);
      Recognize(env);
      ghost var start := Value();
      var o := 0;
      while o < TOTAL
        invariant 0 <= o <= TOTAL && Valid()
        invariant Value() == ApplyFirst(env, start, o)
        invariant o <= TSIZE ==> text == values && recognized[..] == start.recognized
      {
        hide ApplyFirst;
        assert o <= TSIZE ==> recognized[..] == Recognized(env, text);
        ApplyOption(env, o);
        ApplyStep(env, start, o);
        o := o + 1;
      }
    }

    /** The first half of `parse_options`: both walks over the text. */
    method Recognize(env: Env)
      requires Valid() && |text| == size
      requires Locate(text, 0, recognized[..]) == Locate(text, 0, NOWHERE)
      requires Value() == InitialServer(env, text).(recognized := recognized[..])
      modifies this`adaptive, recognized
      ensures Valid()
      ensures Value() == InitialServer(env, text).(
                recognized := Recognized(env, text),
                adaptive := env.adaptive && AsksAdaptive(DecodePairs(text, 0)))
    {
      hide Locate, DecodePairs, AsksAdaptive;
      assert storage[..size] == text;
      ParseOptions(recognized, storage[..size]);
      if !env.list {
        recognized[READ_TYPE] := Missing;
      }
      if env.adaptive {
        var found := FindAdaptive(storage[..size]);
        if found {
          adaptive := true;
          recognized[TIMEOUT] := Own(ADAPTIVE);
        }
      }
    }

    /** The string a recorded option stands for. */
    method ValueOf(ref: Ref) returns (v: string)
      requires Valid() && !ref.Missing?
      ensures v == ReadRef(text, ref).value
    {
      match ref
      case InText(p) =>
        TokenPadded(text, storage.Length, p);
        v := Token(storage[..], p);
      case Own(value) => v := value;
    }

    /** `sprintf` into the text. */
    method PrintAt(p: nat, d: string)
      requires Valid() && p <= |text| && p + |d| + 1 <= storage.Length
      modifies this`text, storage
      ensures Valid() && text == Overwrite(old(text), p, d)
    {
      hide Padded, Overwrite;
      OverwritePadded(text, storage.Length, p, d);
      ghost var before := storage[..];
      var end := CopyString(storage, p, d);
      assert storage[..] == storage[..end] + storage[end..];
      text := Overwrite(text, p, d);
    }

    /** One turn of the loop of `parse_options`. */
    method ApplyOption(env: Env, o: nat)
      requires Valid() && o < TOTAL
      requires o == TSIZE ==> recognized[..] == Recognized(env, text) && Fits(env, text, storage.Length)
      modifies this, storage, recognized
      ensures Valid() && Value() == Apply(env, old(Value()), o)
      ensures o != TSIZE ==> text == old(text) && recognized[..] == old(recognized[..])
    {
      hide EqualNoCase, Strtoul, Print, Wrap16, Wrap8, Padded, Recognized, Token, Overwrite;
      if recognized[o].Missing? {
        return;
      }
      if o == TSIZE {
        ApplySize(env);
        return;
      }
      var value := ValueOf(recognized[o]);
      required := true;
      if o == BLKSIZE {
        blockSize := Wrap16(Strtoul(value).value);
      } else if o == TIMEOUT {
        if EqualNoCase(value, ADAPTIVE) {
          adaptive := true;
        } else {
          timeout := Wrap8(Strtoul(value).value);
        }
      } else if o == WINDOWSIZE {
        windowSize := Wrap16(Strtoul(value).value);
      }
    }

    method ApplySize(env: Env)
      requires Valid() && !recognized[TSIZE].Missing?
      requires recognized[..] == Recognized(env, text) && Fits(env, text, storage.Length)
      modifies this, storage, recognized
      ensures Valid() && Value() == Apply(env, old(Value()), TSIZE)
    {
      hide Print, Padded, Recognized, Token, Overwrite;
      required := true;
      if env.fileSize.None? {
        recognized[TSIZE] := Missing;
        return;
      }
      RecognizedPlaces(env, text);
      match recognized[TSIZE]
      case Own(_) => recognized[TSIZE] := Own(Print(env.fileSize.value));
      case InText(p) => PrintAt(p, Print(env.fileSize.value));
    }
  }

  method CopyOptions(options: array<Opt>, source: seq<Opt>)
    requires options.Length == |source|
    modifies options
    ensures options[..] == source
  {
    forall i | 0 <= i < options.Length {
      options[i] := source[i];
    }
  }

  lemma NullOptions(request: RequestType)
    ensures OptionsInit(request, None) == Client(request, NONE, false, 0, 0, 0, false, false, 0)
  {
  }

  /** The number of an acknowledged option, in the width of its field. */
  function Updated16(opt: Opt, otherwise: uint16): (n: uint16)
  {
    Wrap16(Number(opt, otherwise))
  }

  function Updated8(opt: Opt, otherwise: uint8): (n: uint8)
  {
    Wrap8(Number(opt, otherwise))
  }

  lemma KeptWhenInactive(opt: Opt, c: Client)
    requires opt.Inactive?
    ensures Updated16(opt, c.blockSize) == c.blockSize && Updated16(opt, c.windowSize) == c.windowSize
    ensures Updated8(opt, c.timeout) == c.timeout && Number(opt, c.tsize) == c.tsize
  {
  }

  /** `struct options` of the client's request. */
  class ClientRecord {
    const request: RequestType
    const options: array<Opt>
    var useOptions: bool
    var timeout: uint8
    var blockSize: uint16
    var windowSize: uint16
    var useTsize: bool
    var useAdaptive: bool
    var tsize: nat

    ghost predicate Valid()
    {
      options.Length == TOTAL
    }

    ghost function Value(): (c: Client)
      reads this, options
      requires Valid()
      ensures |c.options| == TOTAL
    {
      Client(request, options[..], useOptions, timeout, blockSize, windowSize, useTsize, useAdaptive, tsize)
    }

    /** `options_init`. */
    constructor (kind: RequestType, given: Option<ClientOptions>)
      ensures Valid() && fresh(options) && Value() == OptionsInit(kind, given)
    {
      request := kind;
      options := new Opt[TOTAL](_ => Inactive);
      useOptions, timeout, blockSize, windowSize := false, 0, 0, 0;
      useTsize, useAdaptive, tsize := false, false, 0;
      new;
      hide OptionsInit;
      NullOptions(kind);
      if given.Some? {
        SetOptions(given.value);
      }
    }

    method SetOptions(co: ClientOptions)
      requires Valid() && tsize == 0
      modifies this, options
      ensures Valid() && Value() == OptionsInit(request, Some(co))
    {
      hide Print, AsksForAdaptive, RequestedOptions;
      SetNumbers(co);
      hide AsksTimeout, AsksBlockSize, AsksWindow;
      CopyOptions(options, RequestedOptions(request, co));
      useOptions := AnyOption();
    }

    method SetNumbers(co: ClientOptions)
      modifies this`timeout, this`blockSize, this`windowSize, this`useTsize, this`useAdaptive
      ensures timeout == if AsksTimeout(co) then co.timeout.value else DEFAULT_TIMEOUT
      ensures blockSize == if AsksBlockSize(co) then co.blockSize.value else DEFAULT_BLKSIZE
      ensures windowSize == if AsksWindow(request, co) then co.windowSize.value else DEFAULT_WINDOW
      ensures useTsize == co.useTsize && useAdaptive == co.useAdaptive
    {
      timeout := if AsksTimeout(co) then co.timeout.value else DEFAULT_TIMEOUT;
      blockSize := if AsksBlockSize(co) then co.blockSize.value else DEFAULT_BLKSIZE;
      windowSize := if AsksWindow(request, co) then co.windowSize.value else DEFAULT_WINDOW;
      useTsize, useAdaptive := co.useTsize, co.useAdaptive;
    }

    method AnyOption() returns (any: bool)
      requires Valid()
      ensures any <==> exists o :: 0 <= o < TOTAL && options[..][o].Active?
    {
      var i := 0;
      while i < TOTAL
        invariant 0 <= i <= TOTAL
        invariant forall o :: 0 <= o < i ==> options[..][o].Inactive?
      {
        if options[i].Active? {
          assert options[..][i].Active?;
          return true;
        }
        i := i + 1;
      }
      return false;
    }

    /** The options of the OACK, in an array of its own. */
    method ReadAcknowledged(values: string) returns (acked: array<Ref>)
      requires Valid()
      modifies this`useAdaptive
      ensures fresh(acked) && acked.Length == TOTAL && ReadAll(values, acked[..]) == Acknowledged(old(Value()), values)
      ensures useAdaptive == if old(useAdaptive) && request == Read then AsksAdaptive(DecodePairs(values, 0)) else old(useAdaptive)
    {
      hide ParsePairs, DecodePairs, AsksAdaptive, Locate, Token;
      acked := new Ref[TOTAL](_ => Missing);
      assert acked[..] == NOWHERE;
      ParseOptions(acked, values);
      LocateReads(values, 0, NOWHERE);
      NothingRead(values);
      if useAdaptive && request == Read {
        useAdaptive := false;
        var found := FindAdaptive(values);
        if found {
          acked[TIMEOUT] := Own(ADAPTIVE);
          useAdaptive := true;
        }
      }
    }

    /** The loop over the acknowledged options. */
    method CollectNumbers(values: string, acked: array<Ref>)
      returns (ok: bool, newBlockSize: uint16, newTimeout: uint8, newWindowSize: uint16)
      requires Valid() && acked.Length == TOTAL
      modifies this`tsize
      ensures ok <==> !Unrequested(Value(), ReadAll(values, acked[..]))
      ensures var told := ReadAll(values, acked[..]);
              ok ==>
                && tsize == Number(told[TSIZE], old(tsize))
                && newBlockSize == Updated16(told[BLKSIZE], blockSize)
                && newWindowSize == Updated16(told[WINDOWSIZE], windowSize)
                && newTimeout == if useAdaptive then timeout else Updated8(told[TIMEOUT], timeout)
    {
      hide Number, Updated16, Updated8, ReadAll, ReadRef;
      ghost var told := ReadAll(values, acked[..]);
      newBlockSize, newTimeout, newWindowSize := blockSize, timeout, windowSize;
      var o := 0;
      while o < TOTAL
        invariant 0 <= o <= TOTAL
        invariant tsize == if o > TSIZE then Number(told[TSIZE], old(tsize)) else old(tsize)
        invariant forall i :: 0 <= i < o ==> !(told[i].Active? && options[i].Inactive?)
        invariant newBlockSize == if o > BLKSIZE then Updated16(told[BLKSIZE], blockSize) else blockSize
        invariant newWindowSize == if o > WINDOWSIZE then Updated16(told[WINDOWSIZE], windowSize) else windowSize
        invariant newTimeout == if o > TIMEOUT && !useAdaptive then Updated8(told[TIMEOUT], timeout) else timeout
      {
        var opt := ReadRef(values, acked[o]);
        ReadAt(values, acked[..], o);
        assert opt == told[o];
        if opt.Active? {
          if options[o].Inactive? {
            assert told[o].Active? && options[..][o].Inactive?;
            return false, newBlockSize, newTimeout, newWindowSize;
          }
          if o == BLKSIZE {
            newBlockSize := Updated16(opt, newBlockSize);
          } else if o == TIMEOUT {
            if !useAdaptive {
              newTimeout := Updated8(opt, newTimeout);
            }
          } else if o == TSIZE {
            tsize := Number(opt, tsize);
          } else if o == WINDOWSIZE {
            newWindowSize := Updated16(opt, newWindowSize);
          }
        } else {
          KeptWhenInactive(opt, Value());
        }
        o := o + 1;
      }
      ok := true;
    }

    /** `handle_oack_packet`. */
    method HandleOackPacket(values: string) returns (accepted: bool)
      requires Valid()
      modifies this, options
      ensures accepted <==> HandleOack(old(Value()), values).Some?
      ensures accepted ==> Value() == HandleOack(old(Value()), values).value
    {
      hide ParsePairs, DecodePairs, AsksAdaptive, Number, Wrap16, Wrap8, Acknowledged, Token, ReadAll;
      var acked := ReadAcknowledged(values);
      ReadAt(values, acked[..], READ_TYPE);
      var newBlockSize, newTimeout, newWindowSize;
      accepted, newBlockSize, newTimeout, newWindowSize := CollectNumbers(values, acked);
      if !accepted {
        return;
      }
      if newBlockSize != blockSize || newWindowSize != windowSize {
        blockSize, windowSize := newBlockSize, newWindowSize;
      }
      if !useAdaptive && newTimeout != timeout {
        timeout := newTimeout;
      }
      if options[READ_TYPE].Active? && acked[READ_TYPE].Missing? {
        options[READ_TYPE] := Inactive;
      }
    }
  }
}
