/**
 * Wi-Fi provisioning: deciding whether the device is configured, and the
 * setup web server's request handler, which gathers an uploaded form body,
 * extracts `ssid` and `password` from it once, writes a `wpa_supplicant`
 * configuration when both are present, and otherwise serves the setup form
 * listing the networks a scan found.
 *
 * Files are their text (`None` when the file cannot be opened); what the
 * handler writes is returned in its reply instead of being written.
 */
module WifiSetup {

  import opened Wrappers
  import opened StdString

  const SSID_KEY := "ssid="
  const PASSWORD_KEY := "password="

  // ---------------------------------------------------------------------
  // Is the device configured?
  // ---------------------------------------------------------------------

  /** Some line of the supplicant configuration mentions `ssid=`. */
  predicate ConfiguredLines(lines: seq<string>)
  {
    InSomeLine(lines, SSID_KEY)
  }

  /** `is_wifi_configured()` on the text of `wpa_supplicant.conf`. */
  method IsWifiConfigured(file: Option<string>) returns (configured: bool)
    ensures configured <==> ConfiguredLines(FileLines(file))
    ensures file.None? ==> !configured
  {
    if file.None? {
      return false;
    }
    var lines := Lines(file.value);
    var i := 0;
    while i < |lines|
      invariant 0 <= i <= |lines|
      invariant forall j :: 0 <= j < i ==> !Contains(lines[j], SSID_KEY)
    {
      if Find(lines[i], SSID_KEY, 0).Some? {
        return true;
      }
      i := i + 1;
    }
    return false;
  }

  // ---------------------------------------------------------------------
  // Extracting the credentials from the form body
  // ---------------------------------------------------------------------

  datatype Credentials = Credentials(ssid: string, password: string)

  /**
   * The hand-written extractor: the raw text after the first `ssid=` up to
   * the next `&` (nothing when no `&` follows) and after the first
   * `password=` up to the next `&` or the end. Nothing is URL-decoded, and
   * when either key is missing both values stay empty.
   */
  function ParseCredentials(body: string): (c: Credentials)
    ensures AbsentFrom(body, SSID_KEY, 0) || AbsentFrom(body, PASSWORD_KEY, 0) ==> c == Credentials("", "")
    ensures '&' !in c.ssid && '&' !in c.password
  {
    var ssidPos := Find(body, SSID_KEY, 0);
    var pwdPos := Find(body, PASSWORD_KEY, 0);
    if ssidPos.None? || pwdPos.None? then Credentials("", "")
    else
      var start := ssidPos.value + |SSID_KEY|;
      var ssidEnd := Find(body, "&", start);
      var ssid := if ssidEnd.Some? then body[start..ssidEnd.value] else "";
      var from := pwdPos.value + |PASSWORD_KEY|;
      var pwdEnd := Find(body, "&", from);
      var password := if pwdEnd.Some? then body[from..pwdEnd.value] else body[from..];
      NoAmpersandBefore(body, start, ssidEnd);
      NoAmpersandBefore(body, from, pwdEnd);
      Credentials(ssid, password)
  }

  /** Text cut at the first `&` after `from` holds no `&`. */
  lemma NoAmpersandBefore(body: string, from: nat, end: Option<nat>)
    requires from <= |body|
    requires end == Find(body, "&", from)
    ensures end.Some? ==> '&' !in body[from..end.value]
    ensures end.None? ==> '&' !in body[from..]
  {
    if end.Some? {
      NoAmpersandUpTo(body, from, end.value);
    } else {
      NoAmpersandAfter(body, from);
    }
  }

  /**
   * When both keys are present, the ssid is the text after the first
   * `ssid=` up to the next `&`, and empty when no `&` follows it: a body
   * whose ssid field comes last is refused, whatever it holds.
   */
  lemma SsidValue(body: string, p: nat)
    requires Find(body, SSID_KEY, 0) == Some(p) && Find(body, PASSWORD_KEY, 0).Some?
    ensures AbsentFrom(body, "&", p + 5) ==> ParseCredentials(body).ssid == ""
    ensures !AbsentFrom(body, "&", p + 5) ==> OccursAt(body, ParseCredentials(body).ssid + "&", p + 5)
  {
    var e := Find(body, "&", p + 5);
    if e.Some? {
      assert ParseCredentials(body).ssid == body[p + 5..e.value];
      AmpersandEnds(body, p + 5, e.value);
    }
  }

  /** A body that names the password before the ssid. */
  const PASSWORD_FIRST := "password=pw&ssid=net"

  /** Such a body is refused: its ssid runs to the end, with no `&` after it. */
  lemma SsidLastIsRefused()
    ensures ParseCredentials(PASSWORD_FIRST).ssid == ""
    ensures !BothPresent(ParseCredentials(PASSWORD_FIRST))
  {
    PasswordFirstKeys();
    PasswordFirstAmpersands();
    SsidValue(PASSWORD_FIRST, 12);
  }

  lemma PasswordFirstKeys()
    ensures Find(PASSWORD_FIRST, PASSWORD_KEY, 0) == Some(0)
    ensures Find(PASSWORD_FIRST, SSID_KEY, 0) == Some(12)
  {
    var body := PASSWORD_FIRST;
    assert OccursAt(body, PASSWORD_KEY, 0);
    FindIs(body, PASSWORD_KEY, 0, 0);
    assert OccursAt(body, SSID_KEY, 12);
    forall j: nat | j < 12 ensures !OccursAt(body, SSID_KEY, j) {
      OccurrenceChar(body, SSID_KEY, j, j);
      OccurrenceChar(body, SSID_KEY, j, j + 4);
    }
    FindIs(body, SSID_KEY, 0, 12);
  }

  lemma PasswordFirstAmpersands()
    ensures AbsentFrom(PASSWORD_FIRST, "&", 17)
    ensures forall j: nat :: 9 <= j < 11 ==> !OccursAt(PASSWORD_FIRST, "&", j)
  {
    forall j: nat | 17 <= j ensures !OccursAt(PASSWORD_FIRST, "&", j) {
      OccursAtChar(PASSWORD_FIRST, '&', j);
    }
    OccursAtChar(PASSWORD_FIRST, '&', 9);
    OccursAtChar(PASSWORD_FIRST, '&', 10);
  }

  /**
   * When both keys are present, the password is the text after the first
   * `password=` up to the next `&`, or to the end of the body.
   */
  lemma PasswordValue(body: string, q: nat)
    requires Find(body, SSID_KEY, 0).Some? && Find(body, PASSWORD_KEY, 0) == Some(q)
    ensures var pw := ParseCredentials(body).password;
      && OccursAt(body, pw, q + 9)
      && (q + 9 + |pw| == |body| || OccursAt(body, "&", q + 9 + |pw|))
  {
    var from := q + 9;
    var f := Find(body, "&", from);
    if f.Some? {
      assert ParseCredentials(body).password == body[from..f.value];
      CutBeforeAmpersand(body, from, f.value);
    } else {
      assert ParseCredentials(body).password == body[from..];
      RestOccurs(body, from);
    }
  }

  lemma CutBeforeAmpersand(body: string, from: nat, e: nat)
    requires from <= e && OccursAt(body, "&", e)
    ensures OccursAt(body, body[from..e], from) && OccursAt(body, "&", from + |body[from..e]|)
  {
  }

  lemma RestOccurs(body: string, from: nat)
    requires from <= |body|
    ensures OccursAt(body, body[from..], from) && from + |body[from..]| == |body|
  {
    assert body[from..from + |body[from..]|] == body[from..];
  }

  lemma AmpersandEnds(body: string, from: nat, e: nat)
    requires from <= e && OccursAt(body, "&", e)
    ensures OccursAt(body, body[from..e] + "&", from)
  {
    var v := body[from..e];
    assert body[e] == '&' by { assert body[e..e + 1][0] == body[e]; }
    assert body[from..e + 1] == v + "&";
  }

  lemma NoAmpersandUpTo(body: string, from: nat, stop: nat)
    requires from <= |body|
    requires Find(body, "&", from) == Some(stop)
    ensures '&' !in body[from..stop]
  {
    NoAmpersandIn(body, from, stop);
  }

  lemma NoAmpersandAfter(body: string, from: nat)
    requires from <= |body|
    requires Find(body, "&", from).None?
    ensures '&' !in body[from..]
  {
    assert AbsentFrom(body, "&", from);
    NoAmpersandIn(body, from, |body|);
    assert body[from..] == body[from..|body|];
  }

  lemma NoAmpersandIn(body: string, from: nat, stop: nat)
    requires from <= stop <= |body|
    requires forall j: nat :: from <= j < stop ==> !OccursAt(body, "&", j)
    ensures '&' !in body[from..stop]
  {
    forall k | 0 <= k < stop - from ensures body[from..stop][k] != '&' {
      OccursAtChar(body, '&', from + k);
    }
  }

  /** The check at the top of the write: both values non-empty. */
  predicate BothPresent(c: Credentials)
  {
    c.ssid != "" && c.password != ""
  }

  /** The only place a pattern occurs from `from` on is `k`, so `find` returns `k`. */
  lemma FindIs(s: string, pat: string, from: nat, k: nat)
    requires from <= k && OccursAt(s, pat, k)
    requires forall j: nat :: from <= j < k ==> !OccursAt(s, pat, j)
    ensures Find(s, pat, from) == Some(k)
  {
    assert !AbsentFrom(s, pat, from);
  }

  /** A one-character pattern occurs exactly where that character is. */
  lemma OccursAtChar(s: string, ch: char, j: nat)
    ensures OccursAt(s, [ch], j) <==> j < |s| && s[j] == ch
  {
    if j < |s| { assert s[j..j + 1] == [s[j]]; }
  }

  /**
   * The body a browser posts from the setup form: the fields `ssid`,
   * `manual-ssid` and `password`, in the form's order, URL-encoded.
   */
  function FormBody(ssid: string, manual: string, password: string): string
  {
    SSID_KEY + ssid + "&manual-ssid=" + manual + "&" + PASSWORD_KEY + password
  }

  /** URL-encoded form values carry no raw `&` or `=`. */
  predicate FormEncoded(value: string)
  {
    '&' !in value && '=' !in value
  }

  /**
   * The extractor recovers exactly the encoded text the browser submitted
   * in the `ssid` and `password` fields, not the values typed (nothing is
   * URL-decoded); the `manual-ssid` field is never read.
   */
  lemma {:induction false} FormBodyParses(ssid: string, manual: string, password: string)
    requires FormEncoded(ssid) && FormEncoded(manual) && FormEncoded(password)
    ensures ParseCredentials(FormBody(ssid, manual, password)) == Credentials(ssid, password)
  {
    var body := FormBody(ssid, manual, password);
    var pwdKey := |SSID_KEY + ssid + "&manual-ssid=" + manual + "&"|;
    SsidFieldFound(ssid, manual, password);
    PasswordFieldFound(ssid, manual, password);
    FieldValues(ssid, manual, password);
    ParsesFoundFields(body, 5 + |ssid|, pwdKey);
  }

  lemma FieldValues(ssid: string, manual: string, password: string)
    ensures var body := FormBody(ssid, manual, password);
      var pwdKey := |SSID_KEY + ssid + "&manual-ssid=" + manual + "&"|;
      && body[5..5 + |ssid|] == ssid
      && body[pwdKey + 9..] == password
  {
    var body := FormBody(ssid, manual, password);
    var pwdKey := |SSID_KEY + ssid + "&manual-ssid=" + manual + "&"|;
    assert body[5..5 + |ssid|] == ssid;
    assert body[pwdKey + 9..] == password;
  }

  /** With `ssid=` first at 0 and `password=` last in the body, the extractor takes the text after each key. */
  lemma ParsesFoundFields(body: string, ssidEnd: nat, pwdKey: nat)
    requires Find(body, SSID_KEY, 0) == Some(0) && Find(body, "&", 5) == Some(ssidEnd)
    requires Find(body, PASSWORD_KEY, 0) == Some(pwdKey) && Find(body, "&", pwdKey + 9) == None
    ensures 5 <= ssidEnd && pwdKey + 9 <= |body|
    ensures ParseCredentials(body) == Credentials(body[5..ssidEnd], body[pwdKey + 9..])
  {
  }

  /** In a submitted body, `ssid=` opens the body and the first `&` after it ends the ssid. */
  lemma SsidFieldFound(ssid: string, manual: string, password: string)
    requires FormEncoded(ssid)
    ensures Find(FormBody(ssid, manual, password), SSID_KEY, 0) == Some(0)
    ensures Find(FormBody(ssid, manual, password), "&", 5) == Some(5 + |ssid|)
  {
    var body := FormBody(ssid, manual, password);
    var amp := 5 + |ssid|;
    assert body[..5] == SSID_KEY;
    FindIs(body, SSID_KEY, 0, 0);
    assert body[5..amp] == ssid;
    OccursAtChar(body, '&', amp);
    forall j: nat | 5 <= j < amp ensures !OccursAt(body, "&", j) {
      OccursAtChar(body, '&', j);
      assert body[j] == ssid[j - 5];
    }
    FindIs(body, "&", 5, amp);
  }

  /** In a submitted body, the first `password=` is the field's key, and no `&` follows it. */
  lemma PasswordFieldFound(ssid: string, manual: string, password: string)
    requires FormEncoded(ssid) && FormEncoded(manual) && FormEncoded(password)
    ensures var pwdKey := |SSID_KEY + ssid + "&manual-ssid=" + manual + "&"|;
      && Find(FormBody(ssid, manual, password), PASSWORD_KEY, 0) == Some(pwdKey)
      && Find(FormBody(ssid, manual, password), "&", pwdKey + 9) == None
  {
    var body := FormBody(ssid, manual, password);
    var pwdKey := |SSID_KEY + ssid + "&manual-ssid=" + manual + "&"|;
    assert body[pwdKey..pwdKey + 9] == PASSWORD_KEY;
    forall j: nat | j < pwdKey ensures !OccursAt(body, PASSWORD_KEY, j) {
      NoEarlierPasswordKey(ssid, manual, password, j);
    }
    FindIs(body, PASSWORD_KEY, 0, pwdKey);
    var from := pwdKey + 9;
    assert body[from..] == password;
    forall j: nat | from <= j ensures !OccursAt(body, "&", j) {
      OccursAtChar(body, '&', j);
      if j < |body| { assert body[j] == password[j - from]; }
    }
    assert AbsentFrom(body, "&", from);
  }

  /** Up to the `password` key, the body's `=` signs are those of `ssid=` and `manual-ssid=`. */
  lemma EqualSigns(ssid: string, manual: string, password: string, e: nat)
    requires FormEncoded(ssid) && FormEncoded(manual)
    requires e < |FormBody(ssid, manual, password)| - |password| - 1
    requires FormBody(ssid, manual, password)[e] == '='
    ensures e == 4 || e == 5 + |ssid| + 12
  {
  }

  /** Before the `password` field, `password=` cannot occur: its `=` would have to be one of those. */
  lemma NoEarlierPasswordKey(ssid: string, manual: string, password: string, j: nat)
    requires FormEncoded(ssid) && FormEncoded(manual)
    requires j < |SSID_KEY + ssid + "&manual-ssid=" + manual + "&"|
    ensures !OccursAt(FormBody(ssid, manual, password), PASSWORD_KEY, j)
  {
    var body := FormBody(ssid, manual, password);
    if OccursAt(body, PASSWORD_KEY, j) {
      assert body[j + 8] == PASSWORD_KEY[8];
      ManualKeyLetter(ssid, manual, password);
      EqualSigns(ssid, manual, password, j + 8);
    }
  }

  /** Where `password=` would have to start, the body holds the `u` of `manual-ssid=`. */
  lemma ManualKeyLetter(ssid: string, manual: string, password: string)
    ensures FormBody(ssid, manual, password)[|SSID_KEY + ssid| + 4] == 'u'
  {
  }

  /**
   * Choosing "Enter manually..." in the form submits the option value
   * `manual` as the ssid, which the extractor takes literally.
   */
  lemma ManualEntryTakesOptionValue(manual: string, password: string)
    requires FormEncoded(manual) && FormEncoded(password)
    ensures ParseCredentials(FormBody("manual", manual, password)).ssid == "manual"
  {
    FormBodyParses("manual", manual, password);
  }

  // ---------------------------------------------------------------------
  // The configuration written on a valid submission
  // ---------------------------------------------------------------------

  /**
   * The lines of the `wpa_supplicant.conf` written for `c`; the write of
   * `country=US` ends in two newlines, which is the empty fourth line.
   */
  function ConfigLines(c: Credentials): seq<string>
  {
    [ "ctrl_interface=DIR=" + "/var/run/wpa_supplicant" + " GROUP=netdev",
      "update_config=1",
      "country=US",
      "",
      "network={",
      "    ssid=\"" + c.ssid + "\"",
      "    psk=\"" + c.password + "\"",
      "    key_mgmt=WPA-PSK",
      "}" ]
  }

  /** The text written for `c`, each line followed by a newline. */
  function WpaConfig(c: Credentials): string
  {
    UnLines(ConfigLines(c))
  }

  /**
   * Whatever the credentials, the written file makes the device
   * configured: its `ssid=` lies in one of the lines read back.
   */
  lemma WrittenConfigIsConfigured(c: Credentials)
    ensures ConfiguredLines(Lines(WpaConfig(c)))
  {
    var ls := ConfigLines(c);
    var t := WpaConfig(c);
    UnLinesAppend(ls[..5], ls[5..]);
    assert ls[..5] + ls[5..] == ls;
    assert ls[5..][1..] == ls[6..];
    var pos := |UnLines(ls[..5])| + 4;
    assert t[pos..pos + 5] == ls[5][4..9] == SSID_KEY;
    OccurrenceLiesInALine(t, SSID_KEY, pos);
  }

  /**
   * When neither value holds a newline the file reads back as exactly the
   * written lines, among them `    ssid="<ssid>"` and `    psk="<password>"`.
   */
  lemma WrittenConfigLines(c: Credentials)
    requires '\n' !in c.ssid && '\n' !in c.password
    ensures Lines(WpaConfig(c)) == ConfigLines(c)
    ensures Lines(WpaConfig(c))[5] == "    ssid=\"" + c.ssid + "\""
    ensures Lines(WpaConfig(c))[6] == "    psk=\"" + c.password + "\""
  {
    ConfigLinesHaveNoNewline(c);
    LinesOfUnLines(ConfigLines(c));
  }

  lemma ConfigLinesHaveNoNewline(c: Credentials)
    requires '\n' !in c.ssid && '\n' !in c.password
    ensures forall i :: 0 <= i < |ConfigLines(c)| ==> '\n' !in ConfigLines(c)[i]
  {
    var ls := ConfigLines(c);
    assert '\n' !in ls[0];
    assert '\n' !in ls[5];
    assert '\n' !in ls[6];
  }

  // ---------------------------------------------------------------------
  // The setup page
  // ---------------------------------------------------------------------

  const PAGE_HEAD :=
    "<html><head><title>Fluid Scale Wi-Fi Setup</title>"
    + "<meta name=\"viewport\" content=\"width=device-width, initial-scale=1\">"
    + "<style>"
    + "body { font-family: 'SF Pro Display', -apple-system, sans-serif; margin: 0; padding: 20px; }"
    + "h1 { color: #1d1d1f; text-align: center; margin-bottom: 30px; }"
    + "form { max-width: 400px; margin: 0 auto; background: #fff; padding: 20px; border-radius: 12px; box-shadow: 0 2px 10px rgba(0,0,0,0.1); }"
    + "label { display: block; margin-bottom: 5px; font-weight: 500; }"
    + "select, input { width: 100%; padding: 12px; margin-bottom: 20px; border: 1px solid #d2d2d7; border-radius: 8px; font-size: 16px; }"
    + "button { background: #0071e3; color: white; border: none; padding: 12px 0; width: 100%; font-size: 16px; border-radius: 8px; cursor: pointer; }"
    + "button:hover { background: #0062c3; }"
    + "</style></head>"
    + "<body>"
    + "<h1>Fluid Scale<br>Wi-Fi Setup</h1>"
    + "<form action=\"/setup\" method=\"post\">"
    + "<label for=\"ssid\">Select Wi-Fi Network:</label>"
    + "<select name=\"ssid\" id=\"ssid\">"

  const MANUAL_OPTION := "<option value=\"manual\">Enter manually...</option>"

  const PAGE_TAIL :=
    "</select>"
    + "<div id=\"manual-ssid\" style=\"display:none;\">"
    + "<label for=\"manual-ssid-input\">Network Name (SSID):</label>"
    + "<input type=\"text\" id=\"manual-ssid-input\" name=\"manual-ssid\">"
    + "</div>"
    + "<label for=\"password\">Wi-Fi Password:</label>"
    + "<input type=\"password\" name=\"password\" id=\"password\">"
    + "<button type=\"submit\">Connect</button>"
    + "</form>"
    + "<script>"
    + "document.getElementById('ssid').addEventListener('change', function() {"
    + "  var manualDiv = document.getElementById('manual-ssid');"
    + "  if (this.value === 'manual') {"
    + "    manualDiv.style.display = 'block';"
    + "  } else {"
    + "    manualDiv.style.display = 'none';"
    + "  }"
    + "});"
    + "</script>"
    + "</body></html>"

  /** The networks the page offers: the scan's lines, empty ones dropped. */
  function NonEmptyLines(lines: seq<string>): (networks: seq<string>)
    ensures |networks| <= |lines|
    ensures forall i :: 0 <= i < |networks| ==> networks[i] != ""
  {
    if lines == [] then []
    else
      var last := lines[|lines| - 1];
      NonEmptyLines(lines[..|lines| - 1]) + (if last == "" then [] else [last])
  }

  /** Filtering keeps exactly the non-empty lines ... */
  lemma {:induction false} NonEmptyLinesMembers(lines: seq<string>, x: string)
    ensures x in NonEmptyLines(lines) <==> x in lines && x != ""
    decreases |lines|
  {
    if lines != [] {
      var init := lines[..|lines| - 1];
      NonEmptyLinesMembers(init, x);
      assert lines == init + [lines[|lines| - 1]];
    }
  }

  /** ... in their order: filtering a concatenation concatenates the filtered parts. */
  lemma {:induction false} NonEmptyLinesAppend(a: seq<string>, b: seq<string>)
    ensures NonEmptyLines(a + b) == NonEmptyLines(a) + NonEmptyLines(b)
    decreases |b|
  {
    if b == [] {
      assert a + b == a;
    } else {
      var b' := b[..|b| - 1];
      assert (a + b)[..|a + b| - 1] == a + b';
      assert (a + b)[|a + b| - 1] == b[|b| - 1];
      NonEmptyLinesAppend(a, b');
    }
  }

  function OptionTag(network: string): string
  {
    "<option value=\"" + network + "\">" + network + "</option>"
  }

  /** The option tags for `networks`, in order. */
  function Options(networks: seq<string>): string
  {
    if networks == [] then ""
    else Options(networks[..|networks| - 1]) + OptionTag(networks[|networks| - 1])
  }

  /** The `i`-th network's option starts right after the options before it. */
  lemma {:induction false} OptionAt(networks: seq<string>, i: nat)
    requires i < |networks|
    ensures OccursAt(Options(networks), OptionTag(networks[i]), |Options(networks[..i])|)
    decreases |networks|
  {
    var n := |networks| - 1;
    var init := networks[..n];
    assert Options(networks) == Options(init) + OptionTag(networks[n]);
    if i == n {
      assert networks[..i] == init;
      OccursAfter(Options(init), OptionTag(networks[i]));
    } else {
      OptionAt(init, i);
      assert init[i] == networks[i];
      assert init[..i] == networks[..i];
      OccursInExtension(Options(init), OptionTag(networks[n]), OptionTag(networks[i]), |Options(networks[..i])|);
    }
  }

  /** The form page for the lines of a network scan. */
  function SetupPage(networks: seq<string>): string
  {
    PAGE_HEAD + Options(networks) + MANUAL_OPTION + PAGE_TAIL
  }

  /**
   * Every non-empty line of the scan is offered as an option, in a tag of
   * its own: the `i`-th network's tag follows those of the networks before it.
   */
  lemma {:induction false} OptionsOfferEveryNetwork(scanLines: seq<string>, network: string)
    requires network in scanLines && network != ""
    ensures exists k: nat :: OccursAt(Options(NonEmptyLines(scanLines)), OptionTag(network), k)
  {
    var networks := NonEmptyLines(scanLines);
    NonEmptyLinesMembers(scanLines, network);
    var i :| 0 <= i < |networks| && networks[i] == network;
    OptionAt(networks, i);
  }

  /**
   * The GET branch's page building: the non-empty scan lines are collected
   * with `push_back`, then one option per network is appended to the page,
   * and the manual-entry option closes the list.
   */
  method BuildSetupPage(scanLines: seq<string>) returns (networks: seq<string>, page: string)
    ensures networks == NonEmptyLines(scanLines)
    ensures page == SetupPage(networks)
  {
    networks := CollectNetworks(scanLines);
    page := AppendOptions(PAGE_HEAD, networks);
    page := page + MANUAL_OPTION + PAGE_TAIL;
  }

  method CollectNetworks(scanLines: seq<string>) returns (networks: seq<string>)
    ensures networks == NonEmptyLines(scanLines)
  {
    networks := [];
    var i := 0;
    while i < |scanLines|
      invariant 0 <= i <= |scanLines|
      invariant networks == NonEmptyLines(scanLines[..i])
    {
      assert scanLines[..i + 1][..i] == scanLines[..i];
      if scanLines[i] != "" {
        networks := networks + [scanLines[i]];
      }
      i := i + 1;
    }
    assert scanLines[..i] == scanLines;
  }

  method AppendOptions(head: string, networks: seq<string>) returns (page: string)
    ensures page == head + Options(networks)
  {
    page := head;
    var j := 0;
    while j < |networks|
      invariant 0 <= j <= |networks|
      invariant page == head + Options(networks[..j])
    {
      assert networks[..j + 1][..j] == networks[..j];
      page := page + OptionTag(networks[j]);
      j := j + 1;
    }
    assert networks[..j] == networks;
  }

  // ---------------------------------------------------------------------
  // The request handler
  // ---------------------------------------------------------------------

  /** What `handle_setup_request` does with a request. */
  datatype SetupReply =
    | Continue                  // MHD_YES with no response: an upload chunk was consumed
    | Success(config: string)   // wpa_supplicant.conf written, success page, reboot scheduled
    | SetupForm(networks: seq<string>)  // 200 with `SetupPage(networks)`
    | NotFound                  // 404

  /** A connection's `ConnectionInfo` as a value. */
  datatype Connection = Connection(postData: string, processed: bool)

  /**
   * One call of the handler on a connection past its first call, with the
   * chunk `upload` and the scan file the GET branch would read.
   */
  function SetupStep(c: Connection, verb: string, url: string, upload: string, scan: Option<string>)
    : (r: (Connection, SetupReply))
    ensures c.processed ==> r.0 == c
    ensures r.0.postData == c.postData || (r.1.Continue? && r.0.postData == c.postData + upload)
    ensures r.1.Success? ==> !c.processed && r.0.processed && ConfiguredLines(Lines(r.1.config))
  {
    var posting := verb == "POST" && !c.processed;
    if posting && upload != [] then
      (Connection(if url == "/setup" then c.postData + upload else c.postData, false), Continue)
    else
      var c' := if posting then Connection(c.postData, true) else c;
      var creds := ParseCredentials(c.postData);
      if posting && BothPresent(creds) then
        WrittenConfigIsConfigured(creds);
        (c', Success(WpaConfig(creds)))
      else if verb == "GET" && (url == "/" || url == "/setup") then
        (c', SetupForm(NonEmptyLines(FileLines(scan))))
      else
        (c', NotFound)
  }

  /** A call of the handler as it reaches `SetupStep`. */
  datatype Request = Request(verb: string, url: string, upload: string, scan: Option<string>)

  /** The replies to a series of calls on one connection, and its final state. */
  function Serve(c: Connection, requests: seq<Request>): (r: (Connection, seq<SetupReply>))
    ensures |r.1| == |requests|
    decreases |requests|
  {
    if requests == [] then (c, [])
    else
      var q := requests[0];
      var step := SetupStep(c, q.verb, q.url, q.upload, q.scan);
      var rest := Serve(step.0, requests[1..]);
      (rest.0, [step.1] + rest.1)
  }

  function SuccessCount(replies: seq<SetupReply>): nat
  {
    if replies == [] then 0
    else (if replies[0].Success? then 1 else 0) + SuccessCount(replies[1..])
  }

  /**
   * The form is parsed at most once per connection: whatever the calls,
   * at most one of them writes a configuration, none once the connection
   * has been processed, and a processed connection stays processed.
   */
  lemma {:induction false} WrittenAtMostOnce(c: Connection, requests: seq<Request>)
    ensures SuccessCount(Serve(c, requests).1) <= (if c.processed then 0 else 1)
    ensures c.processed ==> Serve(c, requests).0 == c
    ensures SuccessCount(Serve(c, requests).1) == 1 ==> Serve(c, requests).0.processed
    decreases |requests|
  {
    if requests != [] {
      var q := requests[0];
      var step := SetupStep(c, q.verb, q.url, q.upload, q.scan);
      WrittenAtMostOnce(step.0, requests[1..]);
    }
  }

  /**
   * A completed POST whose body does not hold both values is answered
   * with 404, not with the form again, and nothing is written.
   */
  lemma InvalidPostIsNotFound(c: Connection, url: string, scan: Option<string>)
    requires !c.processed && !BothPresent(ParseCredentials(c.postData))
    ensures SetupStep(c, "POST", url, "", scan) == (Connection(c.postData, true), NotFound)
  {
  }

  /**
   * A GET never changes the connection: `/` and `/setup` get the form
   * listing the non-empty lines of the scan file, any other url 404.
   */
  lemma GetServesForm(c: Connection, url: string, upload: string, scan: Option<string>)
    ensures url == "/" || url == "/setup" ==>
      SetupStep(c, "GET", url, upload, scan) == (c, SetupForm(NonEmptyLines(FileLines(scan))))
    ensures url != "/" && url != "/setup" ==> SetupStep(c, "GET", url, upload, scan) == (c, NotFound)
  {
  }

  /**
   * A configuration is written exactly on the call that completes a POST
   * on an unprocessed connection whose gathered body holds both values,
   * whatever the url, and it is the file for those values.
   */
  lemma SuccessExactlyOnValidPost(c: Connection, verb: string, url: string, upload: string, scan: Option<string>)
    ensures var r := SetupStep(c, verb, url, upload, scan);
      r.1.Success? <==> verb == "POST" && !c.processed && upload == [] && BothPresent(ParseCredentials(c.postData))
    ensures var r := SetupStep(c, verb, url, upload, scan);
      r.1.Success? ==> r.1.config == WpaConfig(ParseCredentials(c.postData))
  {
  }

  /** A chunk posted to a url other than `/setup` is acknowledged and dropped. */
  lemma ChunkElsewhereDropped(c: Connection, url: string, upload: string, scan: Option<string>)
    requires !c.processed && upload != [] && url != "/setup"
    ensures SetupStep(c, "POST", url, upload, scan) == (c, Continue)
  {
  }

  /** The chunks appended one after another. */
  function Concat(chunks: seq<string>): string
  {
    if chunks == [] then "" else chunks[0] + Concat(chunks[1..])
  }

  function Uploads(chunks: seq<string>): (requests: seq<Request>)
    ensures |requests| == |chunks|
  {
    seq(|chunks|, i requires 0 <= i < |chunks| => Request("POST", "/setup", chunks[i], None))
  }

  /**
   * Uploading a body to `/setup` in non-empty chunks and then completing
   * the request: every chunk is acknowledged, the chunks are gathered in
   * order, and the final call writes the configuration parsed from the
   * whole body if it is valid and answers 404 otherwise.
   */
  lemma PostToSetup(chunks: seq<string>)
    requires forall i :: 0 <= i < |chunks| ==> chunks[i] != ""
    ensures var r := Serve(Connection("", false), Uploads(chunks) + [Request("POST", "/setup", "", None)]);
      var creds := ParseCredentials(Concat(chunks));
      && r.0 == Connection(Concat(chunks), true)
      && r.1 == seq(|chunks|, _ => Continue) + [if BothPresent(creds) then Success(WpaConfig(creds)) else NotFound]
  {
    var done := Request("POST", "/setup", "", None);
    ChunksGathered(chunks, "", [done]);
    var body := Concat(chunks);
    assert "" + body == body;
    CompleteStep(body);
    ServeOne(Connection(body, false), done);
  }

  lemma ServeOne(c: Connection, q: Request)
    ensures var step := SetupStep(c, q.verb, q.url, q.upload, q.scan);
      Serve(c, [q]) == (step.0, [step.1])
  {
    var step := SetupStep(c, q.verb, q.url, q.upload, q.scan);
    assert [q][0] == q && [q][1..] == [];
    assert Serve(step.0, []) == (step.0, []);
    assert [step.1] + [] == [step.1];
  }

  /** The call that completes a POST parses the gathered body once. */
  lemma CompleteStep(body: string)
    ensures var creds := ParseCredentials(body);
      SetupStep(Connection(body, false), "POST", "/setup", "", None)
        == (Connection(body, true), if BothPresent(creds) then Success(WpaConfig(creds)) else NotFound)
  {
  }

  /** A non-empty chunk posted to `/setup` is appended and acknowledged. */
  lemma UploadStep(data: string, chunk: string)
    requires chunk != ""
    ensures SetupStep(Connection(data, false), "POST", "/setup", chunk, None)
      == (Connection(data + chunk, false), Continue)
  {
  }

  lemma {:induction false} ChunksGathered(chunks: seq<string>, data: string, after: seq<Request>)
    requires forall i :: 0 <= i < |chunks| ==> chunks[i] != ""
    ensures Serve(Connection(data, false), Uploads(chunks) + after)
      == (Serve(Connection(data + Concat(chunks), false), after).0,
          seq(|chunks|, _ => Continue) + Serve(Connection(data + Concat(chunks), false), after).1)
    decreases |chunks|
  {
    if chunks == [] {
      assert Uploads(chunks) + after == after;
      assert data + Concat(chunks) == data;
      assert seq(|chunks|, _ => Continue) == [];
      var fin := Serve(Connection(data, false), after);
      assert seq(|chunks|, _ => Continue) + fin.1 == fin.1;
    } else {
      var rest := chunks[1..];
      var requests := Uploads(chunks) + after;
      assert requests[0] == Request("POST", "/setup", chunks[0], None);
      assert requests[1..] == Uploads(rest) + after;
      UploadStep(data, chunks[0]);
      var tail := Serve(Connection(data + chunks[0], false), Uploads(rest) + after);
      assert Serve(Connection(data, false), requests) == (tail.0, [Continue] + tail.1);
      ChunksGathered(rest, data + chunks[0], after);
      assert data + chunks[0] + Concat(rest) == data + Concat(chunks);
      var fin := Serve(Connection(data + Concat(chunks), false), after);
      assert tail == (fin.0, seq(|rest|, _ => Continue) + fin.1);
      assert seq(|chunks|, _ => Continue) == [Continue] + seq(|rest|, _ => Continue);
      assert [Continue] + (seq(|rest|, _ => Continue) + fin.1) == seq(|chunks|, _ => Continue) + fin.1;
    }
  }

  /** The per-connection state the handler keeps between calls. */
  class ConnectionInfo {
    var postData: string
    var processed: bool

    /** The handler's first call on a connection allocates the state. */
    constructor ()
      ensures postData == "" && !processed
    {
      postData := "";
      processed := false;
    }

    /**
     * `handle_setup_request` on a connection past its first call. The form
     * reply names the networks it lists; its text is `SetupPage` of them,
     * built by `BuildSetupPage`.
     */
    method HandleRequest(verb: string, url: string, upload: string, scan: Option<string>)
      returns (reply: SetupReply)
      modifies this
      ensures (Connection(postData, processed), reply)
        == SetupStep(Connection(old(postData), old(processed)), verb, url, upload, scan)
    {
      if verb == "POST" {
        if !processed {
          if |upload| != 0 {
            if url == "/setup" {
              postData := postData + upload;
            }
            return Continue;
          }
          processed := true;
          var creds := ParseCredentials(postData);
          if creds.ssid != "" && creds.password != "" {
            return Success(WpaConfig(creds));
          }
        }
      }
      if verb == "GET" && (url == "/" || url == "/setup") {
        var networks := CollectNetworks(FileLines(scan));
        return SetupForm(networks);
      }
      return NotFound;
    }
  }
}
