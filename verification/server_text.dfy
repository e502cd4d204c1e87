/** Where the parenthesised repair of the lint could begin in the fixed
    server section.

    A match of `if\s*\(\$...` needs a `(`. The server section holds one
    apart from its two `$access_granted` tests, in `"$deny_reason (location
    level)"`, and no `i` comes before it on its line. The lemmas below say
    which stretches hold no `(`; each literal piece is taken on its own,
    because a fact about a whole section is too costly for the solver. */
module ServerText {
  import opened Generator

  lemma EditMarkerNoParen0()
    ensures '(' !in "# END OF CODE TO "
  {
  }

  lemma EditMarkerNoParen1()
    ensures '(' !in "EDIT, DO NOT EDIT "
  {
  }

  lemma EditMarkerNoParen2()
    ensures '(' !in "BELOW.\n"
  {
  }

  lemma EditMarkerNoParen3()
    ensures '(' !in "# =================="
  {
  }

  lemma EditMarkerNoParen4()
    ensures '(' !in "===================="
  {
  }

  lemma EditMarkerNoParen5()
    ensures '(' !in "===================="
  {
  }

  lemma EditMarkerNoParen6()
    ensures '(' !in "===================="
  {
  }

  lemma EditMarkerNoParen7()
    ensures '(' !in "\n"
  {
  }

  lemma EditMarkerNoParen()
    ensures '(' !in EditMarker()
  {
    EditMarkerNoParen0();
    EditMarkerNoParen1();
    EditMarkerNoParen2();
    EditMarkerNoParen3();
    EditMarkerNoParen4();
    EditMarkerNoParen5();
    EditMarkerNoParen6();
    EditMarkerNoParen7();
  }

  lemma ServerStartNoParen0()
    ensures '(' !in "    server {\n"
  {
  }

  lemma ServerStartNoParen1()
    ensures '(' !in "        listen "
  {
  }

  lemma ServerStartNoParen2()
    ensures '(' !in "8080;\n"
  {
  }

  lemma ServerStartNoParen3()
    ensures '(' !in "        resolver "
  {
  }

  lemma ServerStartNoParen4()
    ensures '(' !in "8.8.8.8 1.1.1.1 "
  {
  }

  lemma ServerStartNoParen5()
    ensures '(' !in "ipv6=off;\n"
  {
  }

  lemma ServerStartNoParen6()
    ensures '(' !in "\n"
  {
  }

  lemma ServerStartNoParen7()
    ensures '(' !in "        # "
  {
  }

  lemma ServerStartNoParen8()
    ensures '(' !in "Centralized ACL "
  {
  }

  lemma ServerStartNoParen9()
    ensures '(' !in "Check\n"
  {
  }

  lemma ServerStartNoParen()
    ensures '(' !in ServerStart()
  {
    ServerStartNoParen0();
    ServerStartNoParen1();
    ServerStartNoParen2();
    ServerStartNoParen3();
    ServerStartNoParen4();
    ServerStartNoParen5();
    ServerStartNoParen6();
    ServerStartNoParen7();
    ServerStartNoParen8();
    ServerStartNoParen9();
  }

  lemma ServerHeadNoParen()
    ensures '(' !in ServerHead()
  {
    EditMarkerNoParen();
    ServerStartNoParen();
  }

  lemma ServerDenyNoParen0()
    ensures '(' !in "            return "
  {
  }

  lemma ServerDenyNoParen1()
    ensures '(' !in "403 \"Access Denied: "
  {
  }

  lemma ServerDenyNoParen2()
    ensures '(' !in "$deny_reason\";\n"
  {
  }

  lemma ServerDenyNoParen3()
    ensures '(' !in "        }\n"
  {
  }

  lemma ServerDenyNoParen4()
    ensures '(' !in "\n"
  {
  }

  lemma ServerDenyNoParen()
    ensures '(' !in ServerDeny()
  {
    ServerDenyNoParen0();
    ServerDenyNoParen1();
    ServerDenyNoParen2();
    ServerDenyNoParen3();
    ServerDenyNoParen4();
  }

  lemma ProxyConnectNoParen0()
    ensures '(' !in "        # Security "
  {
  }

  lemma ProxyConnectNoParen1()
    ensures '(' !in "headers and proxy "
  {
  }

  lemma ProxyConnectNoParen2()
    ensures '(' !in "settings remain "
  {
  }

  lemma ProxyConnectNoParen3()
    ensures '(' !in "unchanged\n"
  {
  }

  lemma ProxyConnectNoParen4()
    ensures '(' !in "        "
  {
  }

  lemma ProxyConnectNoParen5()
    ensures '(' !in "proxy_connect;\n"
  {
  }

  lemma ProxyConnectNoParen6()
    ensures '(' !in "        "
  {
  }

  lemma ProxyConnectNoParen7()
    ensures '(' !in "proxy_connect_allow "
  {
  }

  lemma ProxyConnectNoParen8()
    ensures '(' !in "all;\n"
  {
  }

  lemma ProxyConnectNoParen9()
    ensures '(' !in "        "
  {
  }

  lemma ProxyConnectNoParen10()
    ensures '(' !in "proxy_connect_connec"
  {
  }

  lemma ProxyConnectNoParen11()
    ensures '(' !in "t_timeout 10s;\n"
  {
  }

  lemma ProxyConnectNoParen12()
    ensures '(' !in "        "
  {
  }

  lemma ProxyConnectNoParen13()
    ensures '(' !in "proxy_connect_read_t"
  {
  }

  lemma ProxyConnectNoParen14()
    ensures '(' !in "imeout 60s;\n"
  {
  }

  lemma ProxyConnectNoParen15()
    ensures '(' !in "        "
  {
  }

  lemma ProxyConnectNoParen16()
    ensures '(' !in "proxy_connect_send_t"
  {
  }

  lemma ProxyConnectNoParen17()
    ensures '(' !in "imeout 60s;\n"
  {
  }

  lemma ProxyConnectNoParen18()
    ensures '(' !in "\n"
  {
  }

  lemma ProxyConnectNoParen()
    ensures '(' !in ProxyConnect()
  {
    ProxyConnectNoParen0();
    ProxyConnectNoParen1();
    ProxyConnectNoParen2();
    ProxyConnectNoParen3();
    ProxyConnectNoParen4();
    ProxyConnectNoParen5();
    ProxyConnectNoParen6();
    ProxyConnectNoParen7();
    ProxyConnectNoParen8();
    ProxyConnectNoParen9();
    ProxyConnectNoParen10();
    ProxyConnectNoParen11();
    ProxyConnectNoParen12();
    ProxyConnectNoParen13();
    ProxyConnectNoParen14();
    ProxyConnectNoParen15();
    ProxyConnectNoParen16();
    ProxyConnectNoParen17();
    ProxyConnectNoParen18();
  }

  lemma HiddenHeadersNoParen0()
    ensures '(' !in "        "
  {
  }

  lemma HiddenHeadersNoParen1()
    ensures '(' !in "proxy_hide_header "
  {
  }

  lemma HiddenHeadersNoParen2()
    ensures '(' !in "Upgrade;\n"
  {
  }

  lemma HiddenHeadersNoParen3()
    ensures '(' !in "        "
  {
  }

  lemma HiddenHeadersNoParen4()
    ensures '(' !in "proxy_hide_header "
  {
  }

  lemma HiddenHeadersNoParen5()
    ensures '(' !in "X-Powered-By;\n"
  {
  }

  lemma HiddenHeadersNoParen()
    ensures '(' !in HiddenHeaders()
  {
    HiddenHeadersNoParen0();
    HiddenHeadersNoParen1();
    HiddenHeadersNoParen2();
    HiddenHeadersNoParen3();
    HiddenHeadersNoParen4();
    HiddenHeadersNoParen5();
  }

  lemma SecurityHeadersNoParen0()
    ensures '(' !in "        add_header "
  {
  }

  lemma SecurityHeadersNoParen1()
    ensures '(' !in "Content-Security-Pol"
  {
  }

  lemma SecurityHeadersNoParen2()
    ensures '(' !in "icy \"upgrade-insecur"
  {
  }

  lemma SecurityHeadersNoParen3()
    ensures '(' !in "e-requests\";\n"
  {
  }

  lemma SecurityHeadersNoParen4()
    ensures '(' !in "        add_header "
  {
  }

  lemma SecurityHeadersNoParen5()
    ensures '(' !in "X-Frame-Options "
  {
  }

  lemma SecurityHeadersNoParen6()
    ensures '(' !in "\"SAMEORIGIN\";\n"
  {
  }

  lemma SecurityHeadersNoParen7()
    ensures '(' !in "        add_header "
  {
  }

  lemma SecurityHeadersNoParen8()
    ensures '(' !in "X-XSS-Protection "
  {
  }

  lemma SecurityHeadersNoParen9()
    ensures '(' !in "\"1; mode=block\" "
  {
  }

  lemma SecurityHeadersNoParen10()
    ensures '(' !in "always;\n"
  {
  }

  lemma SecurityHeadersNoParen11()
    ensures '(' !in "        add_header "
  {
  }

  lemma SecurityHeadersNoParen12()
    ensures '(' !in "X-Content-Type-Optio"
  {
  }

  lemma SecurityHeadersNoParen13()
    ensures '(' !in "ns \"nosniff\" "
  {
  }

  lemma SecurityHeadersNoParen14()
    ensures '(' !in "always;\n"
  {
  }

  lemma SecurityHeadersNoParen()
    ensures '(' !in SecurityHeaders()
  {
    SecurityHeadersNoParen0();
    SecurityHeadersNoParen1();
    SecurityHeadersNoParen2();
    SecurityHeadersNoParen3();
    SecurityHeadersNoParen4();
    SecurityHeadersNoParen5();
    SecurityHeadersNoParen6();
    SecurityHeadersNoParen7();
    SecurityHeadersNoParen8();
    SecurityHeadersNoParen9();
    SecurityHeadersNoParen10();
    SecurityHeadersNoParen11();
    SecurityHeadersNoParen12();
    SecurityHeadersNoParen13();
    SecurityHeadersNoParen14();
  }

  lemma CacheHeadersNoParen0()
    ensures '(' !in "        add_header "
  {
  }

  lemma CacheHeadersNoParen1()
    ensures '(' !in "Cache-Control "
  {
  }

  lemma CacheHeadersNoParen2()
    ensures '(' !in "\"no-transform\" "
  {
  }

  lemma CacheHeadersNoParen3()
    ensures '(' !in "always;\n"
  {
  }

  lemma CacheHeadersNoParen4()
    ensures '(' !in "        add_header "
  {
  }

  lemma CacheHeadersNoParen5()
    ensures '(' !in "Referrer-Policy "
  {
  }

  lemma CacheHeadersNoParen6()
    ensures '(' !in "no-referrer always;\n"
  {
  }

  lemma CacheHeadersNoParen7()
    ensures '(' !in "        add_header "
  {
  }

  lemma CacheHeadersNoParen8()
    ensures '(' !in "X-Robots-Tag none;\n"
  {
  }

  lemma CacheHeadersNoParen9()
    ensures '(' !in "\n"
  {
  }

  lemma CacheHeadersNoParen()
    ensures '(' !in CacheHeaders()
  {
    CacheHeadersNoParen0();
    CacheHeadersNoParen1();
    CacheHeadersNoParen2();
    CacheHeadersNoParen3();
    CacheHeadersNoParen4();
    CacheHeadersNoParen5();
    CacheHeadersNoParen6();
    CacheHeadersNoParen7();
    CacheHeadersNoParen8();
    CacheHeadersNoParen9();
  }

  lemma ResponseHeadersNoParen()
    ensures '(' !in ResponseHeaders()
  {
    HiddenHeadersNoParen();
    SecurityHeadersNoParen();
    CacheHeadersNoParen();
  }

  lemma ServerRulesNoParen()
    ensures '(' !in ServerRules()
  {
    ServerDenyNoParen();
    ProxyConnectNoParen();
    ResponseHeadersNoParen();
  }

  lemma LocationStartNoParen0()
    ensures '(' !in "        location / "
  {
  }

  lemma LocationStartNoParen1()
    ensures '(' !in "{\n"
  {
  }

  lemma LocationStartNoParen2()
    ensures '(' !in "            # "
  {
  }

  lemma LocationStartNoParen3()
    ensures '(' !in "Single ACL check "
  {
  }

  lemma LocationStartNoParen4()
    ensures '(' !in "instead of "
  {
  }

  lemma LocationStartNoParen5()
    ensures '(' !in "duplicate "
  {
  }

  lemma LocationStartNoParen6()
    ensures '(' !in "validations\n"
  {
  }

  lemma LocationStartNoParen()
    ensures '(' !in LocationStart()
  {
    LocationStartNoParen0();
    LocationStartNoParen1();
    LocationStartNoParen2();
    LocationStartNoParen3();
    LocationStartNoParen4();
    LocationStartNoParen5();
    LocationStartNoParen6();
  }

  lemma ProxyingNoParen0()
    ensures '(' !in "            "
  {
  }

  lemma ProxyingNoParen1()
    ensures '(' !in "proxy_http_version "
  {
  }

  lemma ProxyingNoParen2()
    ensures '(' !in "1.1;\n"
  {
  }

  lemma ProxyingNoParen3()
    ensures '(' !in "            "
  {
  }

  lemma ProxyingNoParen4()
    ensures '(' !in "proxy_set_header "
  {
  }

  lemma ProxyingNoParen5()
    ensures '(' !in "Host $host;\n"
  {
  }

  lemma ProxyingNoParen6()
    ensures '(' !in "            "
  {
  }

  lemma ProxyingNoParen7()
    ensures '(' !in "proxy_set_header "
  {
  }

  lemma ProxyingNoParen8()
    ensures '(' !in "Connection \"\";\n"
  {
  }

  lemma ProxyingNoParen9()
    ensures '(' !in "            "
  {
  }

  lemma ProxyingNoParen10()
    ensures '(' !in "proxy_pass "
  {
  }

  lemma ProxyingNoParen11()
    ensures '(' !in "$scheme://$host$requ"
  {
  }

  lemma ProxyingNoParen12()
    ensures '(' !in "est_uri;\n"
  {
  }

  lemma ProxyingNoParen13()
    ensures '(' !in "\n"
  {
  }

  lemma ProxyingNoParen()
    ensures '(' !in Proxying()
  {
    ProxyingNoParen0();
    ProxyingNoParen1();
    ProxyingNoParen2();
    ProxyingNoParen3();
    ProxyingNoParen4();
    ProxyingNoParen5();
    ProxyingNoParen6();
    ProxyingNoParen7();
    ProxyingNoParen8();
    ProxyingNoParen9();
    ProxyingNoParen10();
    ProxyingNoParen11();
    ProxyingNoParen12();
    ProxyingNoParen13();
  }

  lemma ForwardedHeadersNoParen0()
    ensures '(' !in "            "
  {
  }

  lemma ForwardedHeadersNoParen1()
    ensures '(' !in "proxy_set_header "
  {
  }

  lemma ForwardedHeadersNoParen2()
    ensures '(' !in "X-Real-IP "
  {
  }

  lemma ForwardedHeadersNoParen3()
    ensures '(' !in "$remote_addr;\n"
  {
  }

  lemma ForwardedHeadersNoParen4()
    ensures '(' !in "            "
  {
  }

  lemma ForwardedHeadersNoParen5()
    ensures '(' !in "proxy_set_header "
  {
  }

  lemma ForwardedHeadersNoParen6()
    ensures '(' !in "X-Forwarded-For "
  {
  }

  lemma ForwardedHeadersNoParen7()
    ensures '(' !in "$proxy_add_x_forward"
  {
  }

  lemma ForwardedHeadersNoParen8()
    ensures '(' !in "ed_for;\n"
  {
  }

  lemma ForwardedHeadersNoParen9()
    ensures '(' !in "            "
  {
  }

  lemma ForwardedHeadersNoParen10()
    ensures '(' !in "proxy_set_header "
  {
  }

  lemma ForwardedHeadersNoParen11()
    ensures '(' !in "X-Forwarded-Proto "
  {
  }

  lemma ForwardedHeadersNoParen12()
    ensures '(' !in "$scheme;\n"
  {
  }

  lemma ForwardedHeadersNoParen13()
    ensures '(' !in "\n"
  {
  }

  lemma ForwardedHeadersNoParen()
    ensures '(' !in ForwardedHeaders()
  {
    ForwardedHeadersNoParen0();
    ForwardedHeadersNoParen1();
    ForwardedHeadersNoParen2();
    ForwardedHeadersNoParen3();
    ForwardedHeadersNoParen4();
    ForwardedHeadersNoParen5();
    ForwardedHeadersNoParen6();
    ForwardedHeadersNoParen7();
    ForwardedHeadersNoParen8();
    ForwardedHeadersNoParen9();
    ForwardedHeadersNoParen10();
    ForwardedHeadersNoParen11();
    ForwardedHeadersNoParen12();
    ForwardedHeadersNoParen13();
  }

  lemma TimeoutsNoParen0()
    ensures '(' !in "            "
  {
  }

  lemma TimeoutsNoParen1()
    ensures '(' !in "proxy_connect_timeou"
  {
  }

  lemma TimeoutsNoParen2()
    ensures '(' !in "t 10s;\n"
  {
  }

  lemma TimeoutsNoParen3()
    ensures '(' !in "            "
  {
  }

  lemma TimeoutsNoParen4()
    ensures '(' !in "proxy_send_timeout "
  {
  }

  lemma TimeoutsNoParen5()
    ensures '(' !in "60s;\n"
  {
  }

  lemma TimeoutsNoParen6()
    ensures '(' !in "            "
  {
  }

  lemma TimeoutsNoParen7()
    ensures '(' !in "proxy_read_timeout "
  {
  }

  lemma TimeoutsNoParen8()
    ensures '(' !in "60s;\n"
  {
  }

  lemma TimeoutsNoParen9()
    ensures '(' !in "        }\n"
  {
  }

  lemma TimeoutsNoParen10()
    ensures '(' !in "    }\n"
  {
  }

  lemma TimeoutsNoParen11()
    ensures '(' !in "}"
  {
  }

  lemma TimeoutsNoParen()
    ensures '(' !in Timeouts()
  {
    TimeoutsNoParen0();
    TimeoutsNoParen1();
    TimeoutsNoParen2();
    TimeoutsNoParen3();
    TimeoutsNoParen4();
    TimeoutsNoParen5();
    TimeoutsNoParen6();
    TimeoutsNoParen7();
    TimeoutsNoParen8();
    TimeoutsNoParen9();
    TimeoutsNoParen10();
    TimeoutsNoParen11();
  }

  lemma LocationDenyNoParen4()
    ensures '(' !in "location level)\";\n"
  {
  }

  lemma LocationDenyNoParen5()
    ensures '(' !in "                "
  {
  }

  lemma LocationDenyNoParen6()
    ensures '(' !in "return 403 \"Access "
  {
  }

  lemma LocationDenyNoParen7()
    ensures '(' !in "Denied: "
  {
  }

  lemma LocationDenyNoParen8()
    ensures '(' !in "$deny_reason\";\n"
  {
  }

  lemma LocationDenyNoParen9()
    ensures '(' !in "            }\n"
  {
  }

  lemma LocationDenyNoParen10()
    ensures '(' !in "\n"
  {
  }

  lemma LocationDenyNoIf0()
    ensures 'i' !in "                set "
  {
  }

  lemma LocationDenyNoIf1()
    ensures 'i' !in "$deny_reason "
  {
  }

  lemma LocationDenyNoIf2()
    ensures 'i' !in "\"$deny_reason "
  {
  }

  /** Seven pieces after a head read as the head and then the pieces. */
  lemma Regroup(x: string, c0: string, c1: string, c2: string, c3: string, c4: string, c5: string, c6: string)
    ensures x + c0 + c1 + c2 + c3 + c4 + c5 + c6 == x + (c0 + c1 + c2 + c3 + c4 + c5 + c6)
  {
  }

  /** The location refusal up to its `(`. */
  function DenyLead(): string {
    "                set " + "$deny_reason " + "\"$deny_reason "
  }

  /** The location refusal after its `(`. */
  function DenyTail(): string {
    "location level)\";\n" + "                " + "return 403 \"Access " + "Denied: " + "$deny_reason\";\n" + "            }\n" + "\n"
  }

  lemma DenyLeadNoIf()
    ensures 'i' !in DenyLead()
  {
    LocationDenyNoIf0();
    LocationDenyNoIf1();
    LocationDenyNoIf2();
  }

  lemma DenyTailNoParen()
    ensures '(' !in DenyTail()
  {
    LocationDenyNoParen4();
    LocationDenyNoParen5();
    LocationDenyNoParen6();
    LocationDenyNoParen7();
    LocationDenyNoParen8();
    LocationDenyNoParen9();
    LocationDenyNoParen10();
  }

  /** The location refusal is its lead, its `(` and its tail. */
  lemma LocationDenySplit()
    ensures LocationDeny() == DenyLead() + ("(" + DenyTail())
  {
    Regroup(DenyLead() + "(", "location level)\";\n", "                ", "return 403 \"Access ", "Denied: ", "$deny_reason\";\n", "            }\n", "\n");
  }

  /** A text split at a `(` stays split when more text follows. */
  lemma SplitCarries(x: string, a: string, d: string, p: string, f: string, t: string)
    requires x == a + ("(" + d)
    ensures x + p + f + t == a + ("(" + (d + p + f + t))
  {
  }

  /** The location body splits at its one `(`: no `i` comes before it and
      no `(` after it. */
  lemma LocationBodyParen() returns (a: string, b: string)
    ensures LocationBody() == a + ("(" + b)
    ensures 'i' !in a && '(' !in b
  {
    LocationDenySplit();
    SplitCarries(LocationDeny(), DenyLead(), DenyTail(), Proxying(), ForwardedHeaders(), Timeouts());
    DenyLeadNoIf();
    DenyTailNoParen();
    ProxyingNoParen();
    ForwardedHeadersNoParen();
    TimeoutsNoParen();
    a := DenyLead();
    b := DenyTail() + Proxying() + ForwardedHeaders() + Timeouts();
  }
}
