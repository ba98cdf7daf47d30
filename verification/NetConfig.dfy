/** The persisted network configuration: hex codec of the key, load, save and the rule by which
    stored values override the defaults. The JSON file is one record with the key as text. */
module NetConfig {
  import opened Bits
  import opened Wrappers

  const KEY_LEN: nat := 16
  const HEX_LEN: nat := 32

  type NwkKey = k: seq<byte> | |k| == KEY_LEN witness [0, 0, 0, 0, 0, 0, 0, 0, 0, 0, 0, 0, 0, 0, 0, 0]

  const ZERO_KEY: NwkKey := [0, 0, 0, 0, 0, 0, 0, 0, 0, 0, 0, 0, 0, 0, 0, 0]

  // ---------- Hex codec ----------

  predicate IsHex(c: char) {
    '0' <= c <= '9' || 'a' <= c <= 'f' || 'A' <= c <= 'F'
  }

  function DigitValue(c: char): (n: nat)
    requires IsHex(c)
    ensures n < 16
  {
    if c <= '9' then c as int - '0' as int
    else if c <= 'F' then c as int - 'A' as int + 10
    else c as int - 'a' as int + 10
  }

  /** The lowercase digit of a number below 16. */
  function Digit(n: nat): (c: char)
    requires n < 16
    ensures IsHex(c) && DigitValue(c) == n
  {
    if n < 10 then (n + '0' as int) as char else (n - 10 + 'a' as int) as char
  }

  /** Two digits for each byte, the upper half first. */
  function HexOf(key: seq<byte>): (s: string)
    ensures |s| == 2 * |key|
  {
    if key == [] then []
    else
      var last := key[|key| - 1];
      HexOf(key[..|key| - 1]) + [Digit(last / 16), Digit(last % 16)]
  }

  lemma {:induction false} HexOfAt(key: seq<byte>, i: nat)
    requires i < |key|
    ensures HexOf(key)[2 * i] == Digit(key[i] / 16) && HexOf(key)[2 * i + 1] == Digit(key[i] % 16)
    decreases |key|
  {
    if i < |key| - 1 {
      HexOfAt(key[..|key| - 1], i);
    }
  }

  lemma {:induction false} HexOfSnoc(key: seq<byte>, b: byte)
    ensures HexOf(key + [b]) == HexOf(key) + [Digit(b / 16), Digit(b % 16)]
  {
    assert (key + [b])[..|key|] == key;
  }

  /** White space as `isspace` sees it: the blank and the five control characters from tab on. */
  predicate IsBlank(c: char) {
    c == ' ' || '\t' <= c <= '\r'
  }

  predicate IsSign(c: char) {
    c == '+' || c == '-'
  }

  /** The first position from `i` on that holds no white space. */
  function SkipBlanks(text: string, i: nat): (k: nat)
    requires i <= |text|
    ensures i <= k <= |text|
    ensures forall j :: i <= j < k ==> IsBlank(text[j])
    ensures k < |text| ==> !IsBlank(text[k])
    decreases |text| - i
  {
    if i == |text| || !IsBlank(text[i]) then i else SkipBlanks(text, i + 1)
  }

  /** `%02x` on the text from position `i` on. White space is skipped and does not count; then at most
      two characters are read, of which the first may be a sign. A negative number keeps its low byte. */
  function ScanByte(text: string, i: nat): Option<byte>
    requires i <= |text|
  {
    var k := SkipBlanks(text, i);
    if k == |text| then None
    else if IsSign(text[k]) then
      if k + 1 == |text| || !IsHex(text[k + 1]) then None
      else Some(if text[k] == '+' then DigitValue(text[k + 1]) else (256 - DigitValue(text[k + 1])) % 256)
    else if !IsHex(text[k]) then None
    else if k + 1 < |text| && IsHex(text[k + 1]) then Some(16 * DigitValue(text[k]) + DigitValue(text[k + 1]))
    else Some(DigitValue(text[k]))
  }

  /** Key bytes from position `i` on are overwritten until one cannot be read. */
  function Scan(hex: string, i: nat, key: NwkKey): (bool, NwkKey)
    requires i <= KEY_LEN && |hex| >= HEX_LEN
    decreases KEY_LEN - i
  {
    if i == KEY_LEN then (true, key)
    else match ScanByte(hex, 2 * i)
      case None => (false, key)
      case Some(b) => Scan(hex, i + 1, key[i := b])
  }

  function ParseKey(hex: string, key: NwkKey): (bool, NwkKey) {
    if |hex| < HEX_LEN then (false, key) else Scan(hex, 0, key)
  }

  /** Writes the digits and, behind each pair, a terminator that the next pair overwrites. */
  method KeyToHex(key: array<byte>, hex: array<char>)
    requires key.Length == KEY_LEN && hex.Length == HEX_LEN + 1
    modifies hex
    ensures hex[..] == HexOf(key[..]) + ['\0']
  {
    for i := 0 to KEY_LEN
      invariant hex[..2 * i] == HexOf(key[..i])
      invariant i > 0 ==> hex[2 * i] == '\0'
    {
      HexOfSnoc(key[..i], key[i]);
      assert key[..i + 1] == key[..i] + [key[i]];
      hex[2 * i], hex[2 * i + 1], hex[2 * i + 2] := Digit(key[i] / 16), Digit(key[i] % 16), '\0';
      assert hex[..2 * i + 2] == hex[..2 * i] + [hex[2 * i], hex[2 * i + 1]];
    }
    assert key[..KEY_LEN] == key[..];
    assert hex[..] == hex[..HEX_LEN] + [hex[HEX_LEN]];
  }

  method HexToKey(hex: string, key: array<byte>) returns (ok: bool)
    requires key.Length == KEY_LEN
    modifies key
    ensures (ok, key[..]) == ParseKey(hex, old(key[..]))
  {
    if |hex| < HEX_LEN {
      return false;
    }
    for i := 0 to KEY_LEN
      invariant Scan(hex, 0, old(key[..])) == Scan(hex, i, key[..])
    {
      var scanned := ScanByte(hex, 2 * i);
      if scanned.None? {
        return false;
      }
      ghost var before := key[..];
      key[i] := scanned.value;
      assert key[..] == before[i := scanned.value];
    }
    return true;
  }

  lemma {:induction false} ScanHexOf(k: NwkKey, i: nat, key: NwkKey)
    requires i <= KEY_LEN && key[..i] == k[..i]
    ensures Scan(HexOf(k), i, key) == (true, k)
    decreases KEY_LEN - i
  {
    if i < KEY_LEN {
      HexOfAt(k, i);
      assert ScanByte(HexOf(k), 2 * i) == Some(k[i]);
      PrefixGrows(k, key, i);
      ScanHexOf(k, i + 1, key[i := k[i]]);
    } else {
      assert key[..KEY_LEN] == key && k[..KEY_LEN] == k;
    }
  }

  lemma {:induction false} PrefixGrows(k: NwkKey, key: NwkKey, i: nat)
    requires i < KEY_LEN && key[..i] == k[..i]
    ensures key[i := k[i]][..i + 1] == k[..i + 1]
  {
    assert key[i := k[i]][..i] == key[..i];
    assert k[..i + 1] == k[..i] + [k[i]];
  }

  /** Every key survives the trip through its text form, whatever the target held before. */
  lemma {:induction false} ParseHexOf(k: NwkKey, key: NwkKey)
    ensures ParseKey(HexOf(k), key) == (true, k)
  {
    ScanHexOf(k, 0, key);
  }

  /** Behind white space there is a digit, or a sign and a digit. */
  ghost predicate Readable(text: string, i: nat) {
    exists k :: i <= k < |text| && StartsNumber(text, k) && forall j :: i <= j < k ==> IsBlank(text[j])
  }

  predicate StartsNumber(text: string, k: nat)
    requires k < |text|
  {
    IsHex(text[k]) || (IsSign(text[k]) && k + 1 < |text| && IsHex(text[k + 1]))
  }

  lemma {:induction false} ScanByteIff(text: string, i: nat)
    requires i <= |text|
    ensures ScanByte(text, i).Some? <==> Readable(text, i)
  {
    var first := SkipBlanks(text, i);
    if Readable(text, i) {
      var k :| i <= k < |text| && StartsNumber(text, k) && forall j :: i <= j < k ==> IsBlank(text[j]);
      assert k == first;
    }
    if ScanByte(text, i).Some? {
      assert StartsNumber(text, first);
    }
  }

  lemma {:induction false} ScanAccepts(hex: string, i: nat, key: NwkKey)
    requires i <= KEY_LEN && |hex| >= HEX_LEN
    ensures Scan(hex, i, key).0 <==> forall j :: i <= j < KEY_LEN ==> Readable(hex, 2 * j)
    decreases KEY_LEN - i
  {
    if i < KEY_LEN {
      ScanByteIff(hex, 2 * i);
      match ScanByte(hex, 2 * i) {
        case None => assert !Readable(hex, 2 * i);
        case Some(b) => ScanAccepts(hex, i + 1, key[i := b]);
      }
    }
  }

  /** The parser accepts more than 32-digit texts: from every other one of the first 32 positions on,
      white space is skipped and a sign is taken, and the second digit may be missing. */
  lemma {:induction false} AcceptedKeys(hex: string, key: NwkKey)
    ensures ParseKey(hex, key).0 <==>
            |hex| >= HEX_LEN && forall j :: 0 <= j < KEY_LEN ==> Readable(hex, 2 * j)
  {
    if |hex| >= HEX_LEN {
      ScanAccepts(hex, 0, key);
    }
  }

  /** Sixteen times a blank and a digit: not a 32-digit text, and accepted. */
  lemma {:induction false} BlanksAccepted(digits: string, text: string, key: NwkKey)
    requires |digits| == KEY_LEN && |text| == HEX_LEN
    requires forall i :: 0 <= i < KEY_LEN ==> IsHex(digits[i]) && text[2 * i] == ' ' && text[2 * i + 1] == digits[i]
    ensures ParseKey(text, key).0 && !forall i :: 0 <= i < HEX_LEN ==> IsHex(text[i])
  {
    forall j | 0 <= j < KEY_LEN ensures Readable(text, 2 * j) {
      assert IsBlank(text[2 * j]) && text[2 * j + 1] == digits[j];
      assert StartsNumber(text, 2 * j + 1);
    }
    AcceptedKeys(text, key);
    assert !IsHex(text[2 * 0]);
  }

  // ---------- The stored record ----------

  datatype NetCfg = NetCfg(pan: Word16, channel: byte, key: NwkKey, baud: nat)

  const ZERO_CFG := NetCfg(0, 0, ZERO_KEY, 0)

  /** `Malformed` stands for text that does not parse or lacks a field. */
  datatype ConfigFile = Absent | Malformed | Json(pan: Word16, channel: byte, hexKey: string, baud: nat)

  /** Load into `cfg`; a key that cannot be read fails the load after the other fields are set. */
  function Load(file: ConfigFile, cfg: NetCfg): (bool, NetCfg) {
    match file
    case Absent => (false, cfg)
    case Malformed => (false, cfg)
    case Json(pan, channel, hexKey, baud) =>
      var (ok, key) := ParseKey(hexKey, cfg.key);
      (ok, NetCfg(pan, channel, key, baud))
  }

  function Save(cfg: NetCfg): ConfigFile {
    Json(cfg.pan, cfg.channel, HexOf(cfg.key), cfg.baud)
  }

  lemma {:induction false} LoadSaved(cfg: NetCfg, prior: NetCfg)
    ensures Load(Save(cfg), prior) == (true, cfg)
  {
    ParseHexOf(cfg.key, prior.key);
  }

  // ---------- Effective parameters ----------

  /** The network parameters in force; also the shape of the compiled-in defaults. */
  datatype Params = Params(pan: Word16, channel: byte, key: NwkKey)

  /** Stored values override the defaults unless they are zero. */
  function Effective(d: Params, file: ConfigFile): Params {
    var (ok, stored) := Load(file, ZERO_CFG);
    if !ok then d
    else Params(if stored.pan != 0 then stored.pan else d.pan,
                if stored.channel != 0 then stored.channel else d.channel,
                if stored.key != ZERO_KEY then stored.key else d.key)
  }

  /** What a saved configuration puts in force. */
  lemma {:induction false} EffectiveSaved(d: Params, cfg: NetCfg)
    ensures Effective(d, Save(cfg))
            == Params(if cfg.pan != 0 then cfg.pan else d.pan,
                      if cfg.channel != 0 then cfg.channel else d.channel,
                      if cfg.key != ZERO_KEY then cfg.key else d.key)
  {
    LoadSaved(cfg, ZERO_CFG);
  }

  /** A file that is absent, that does not parse or whose key cannot be read puts nothing in force: the defaults
      are. */
  lemma {:induction false} DefaultsWithoutFile(d: Params, file: ConfigFile)
    requires file.Json? ==> KeyUnreadable(file)
    ensures Effective(d, file) == d
  {
    if file.Json? {
      AcceptedKeys(file.hexKey, ZERO_KEY);
    }
  }

  /** Saving the parameters in force and loading them again changes nothing, for all defaults. */
  lemma {:induction false} EffectiveFixpoint(d: Params, file: ConfigFile, baud: nat)
    ensures var p := Effective(d, file);
            Effective(d, Save(NetCfg(p.pan, p.channel, p.key, baud))) == p
  {
    var p := Effective(d, file);
    LoadSaved(NetCfg(p.pan, p.channel, p.key, baud), ZERO_CFG);
  }

  /** The change-channel command: read what is there, ignoring errors, replace the channel, save. */
  function WithChannel(file: ConfigFile, channel: byte): ConfigFile {
    var (_, stored) := Load(file, ZERO_CFG);
    Save(stored.(channel := channel))
  }

  /** The stored record keeps what else it holds. */
  lemma {:induction false} WithChannelKeeps(file: ConfigFile, channel: byte)
    ensures Load(WithChannel(file, channel), ZERO_CFG) == (true, Load(file, ZERO_CFG).1.(channel := channel))
  {
    LoadSaved(Load(file, ZERO_CFG).1.(channel := channel), ZERO_CFG);
  }

  /** A stored record whose key text is rejected. */
  ghost predicate KeyUnreadable(file: ConfigFile) {
    file.Json? && (|file.hexKey| < HEX_LEN || exists j :: 0 <= j < KEY_LEN && !Readable(file.hexKey, 2 * j))
  }

  /** Changing the channel leaves PAN ID and key in force as they are, exactly when the file is not
      one with an unreadable key whose other contents would now become effective. */
  lemma {:induction false} ChangeChannelOnly(d: Params, file: ConfigFile, channel: byte)
    requires channel != 0
    ensures Effective(d, WithChannel(file, channel)).channel == channel
    ensures Effective(d, WithChannel(file, channel)) == Effective(d, file).(channel := channel)
            <==> (KeyUnreadable(file) ==>
                    && file.pan in {0, d.pan}
                    && ParseKey(file.hexKey, ZERO_KEY).1 in {ZERO_KEY, d.key})
  {
    var (_, stored) := Load(file, ZERO_CFG);
    LoadSaved(stored.(channel := channel), ZERO_CFG);
    if file.Json? {
      AcceptedKeys(file.hexKey, ZERO_KEY);
    }
  }

  /** A file that fails: its key is empty, so the whole record was ignored, and after the change of channel
      its PAN ID is in force. */
  lemma {:induction false} ChangeChannelBringsIn(d: Params, channel: byte, baud: nat)
    requires d.pan != 0x1234 && channel != 0
    ensures var file := Json(0x1234, 15, "", baud);
            Effective(d, file) == d && Effective(d, WithChannel(file, channel)).pan == 0x1234
  {
    var (_, stored) := Load(Json(0x1234, 15, "", baud), ZERO_CFG);
    LoadSaved(stored.(channel := channel), ZERO_CFG);
  }

  /** In particular for a file that is absent or was written by a save. */
  lemma {:induction false} ChangeChannelAfterSave(d: Params, file: ConfigFile, channel: byte)
    requires channel != 0 && (file.Absent? || exists cfg :: file == Save(cfg))
    ensures Effective(d, WithChannel(file, channel)) == Effective(d, file).(channel := channel)
  {
    if !file.Absent? {
      var cfg :| file == Save(cfg);
      ParseHexOf(cfg.key, ZERO_KEY);
      AcceptedKeys(file.hexKey, ZERO_KEY);
    }
    ChangeChannelOnly(d, file, channel);
  }
}
