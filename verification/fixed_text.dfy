/** The fixed text of the generated configuration never lets a block
    expression match: wherever `geo` or `map` may begin in it, the keyword is
    followed by ` "` (the fixed maps are keyed by quoted expressions), which
    the parser's block expressions reject. */
module FixedText {
  import opened Generator
  import opened Keywords

  lemma DefaultLineSilent()
    ensures Silent(DefaultLine())
  {
  }

  lemma BlockEndSilent()
    ensures Silent(BlockEnd())
  {
  }

  lemma PreamblePiece0()
    ensures Silent("worker_processes ")
  {
  }

  lemma PreamblePiece1()
    ensures Silent("auto;\n")
  {
  }

  lemma PreamblePiece2()
    ensures Silent("daemon off;\n")
  {
  }

  lemma PreamblePiece3()
    ensures Silent("events {\n")
  {
  }

  lemma PreamblePiece4()
    ensures Silent("    worker_connectio")
  {
  }

  lemma PreamblePiece5()
    ensures Silent("ns 1024;\n")
  {
  }

  lemma PreamblePiece6()
    ensures Silent("}\n")
  {
  }

  lemma PreamblePiece7()
    ensures Silent("\n")
  {
  }

  lemma PreamblePiece8()
    ensures Silent("http {\n")
  {
  }

  lemma PreamblePiece9()
    ensures Silent("    # Log formats ")
  {
  }

  lemma PreamblePiece10()
    ensures Silent("remain unchanged\n")
  {
  }

  lemma PreambleSilent()
    ensures Silent(Preamble())
  {
    PreamblePiece0();
    var t := "worker_processes ";
    PreamblePiece1();
    SilentJoin(t, "auto;\n");
    t := t + "auto;\n";
    PreamblePiece2();
    SilentJoin(t, "daemon off;\n");
    t := t + "daemon off;\n";
    PreamblePiece3();
    SilentJoin(t, "events {\n");
    t := t + "events {\n";
    PreamblePiece4();
    SilentJoin(t, "    worker_connectio");
    t := t + "    worker_connectio";
    PreamblePiece5();
    SilentJoin(t, "ns 1024;\n");
    t := t + "ns 1024;\n";
    PreamblePiece6();
    SilentJoin(t, "}\n");
    t := t + "}\n";
    PreamblePiece7();
    SilentJoin(t, "\n");
    t := t + "\n";
    PreamblePiece8();
    SilentJoin(t, "http {\n");
    t := t + "http {\n";
    PreamblePiece9();
    SilentJoin(t, "    # Log formats ");
    t := t + "    # Log formats ";
    PreamblePiece10();
    SilentJoin(t, "remain unchanged\n");
    t := t + "remain unchanged\n";
  }

  lemma MainLogFormatPiece0()
    ensures Silent("    log_format main ")
  {
  }

  lemma MainLogFormatPiece1()
    ensures Silent("\'$remote_addr - ")
  {
  }

  lemma MainLogFormatPiece2()
    ensures Silent("$remote_user ")
  {
  }

  lemma MainLogFormatPiece3()
    ensures Silent("[$time_local] ")
  {
  }

  lemma MainLogFormatPiece4()
    ensures Silent("\"$request\" \'\n")
  {
  }

  lemma MainLogFormatPiece5()
    ensures Silent("                    ")
  {
  }

  lemma MainLogFormatPiece6()
    ensures Silent("\'$status ")
  {
  }

  lemma MainLogFormatPiece7()
    ensures Silent("$body_bytes_sent ")
  {
  }

  lemma MainLogFormatPiece8()
    ensures Silent("\"$http_referer\" \'\n")
  {
  }

  lemma MainLogFormatPiece9()
    ensures Silent("                    ")
  {
  }

  lemma MainLogFormatPiece10()
    ensures Silent("\'\"$http_user_agent\" ")
  {
  }

  lemma MainLogFormatPiece11()
    ensures Silent("\"$http_x_forwarded_f")
  {
  }

  lemma MainLogFormatPiece12()
    ensures Silent("or\"\';\n")
  {
  }

  lemma MainLogFormatSilent()
    ensures Silent(MainLogFormat())
  {
    MainLogFormatPiece0();
    var t := "    log_format main ";
    MainLogFormatPiece1();
    SilentJoin(t, "\'$remote_addr - ");
    t := t + "\'$remote_addr - ";
    MainLogFormatPiece2();
    SilentJoin(t, "$remote_user ");
    t := t + "$remote_user ";
    MainLogFormatPiece3();
    SilentJoin(t, "[$time_local] ");
    t := t + "[$time_local] ";
    MainLogFormatPiece4();
    SilentJoin(t, "\"$request\" \'\n");
    t := t + "\"$request\" \'\n";
    MainLogFormatPiece5();
    SilentJoin(t, "                    ");
    t := t + "                    ";
    MainLogFormatPiece6();
    SilentJoin(t, "\'$status ");
    t := t + "\'$status ";
    MainLogFormatPiece7();
    SilentJoin(t, "$body_bytes_sent ");
    t := t + "$body_bytes_sent ";
    MainLogFormatPiece8();
    SilentJoin(t, "\"$http_referer\" \'\n");
    t := t + "\"$http_referer\" \'\n";
    MainLogFormatPiece9();
    SilentJoin(t, "                    ");
    t := t + "                    ";
    MainLogFormatPiece10();
    SilentJoin(t, "\'\"$http_user_agent\" ");
    t := t + "\'\"$http_user_agent\" ";
    MainLogFormatPiece11();
    SilentJoin(t, "\"$http_x_forwarded_f");
    t := t + "\"$http_x_forwarded_f";
    MainLogFormatPiece12();
    SilentJoin(t, "or\"\';\n");
    t := t + "or\"\';\n";
  }

  lemma DeniedLogFormatPiece0()
    ensures Silent("    log_format ")
  {
  }

  lemma DeniedLogFormatPiece1()
    ensures Silent("denied \'$remote_addr")
  {
  }

  lemma DeniedLogFormatPiece2()
    ensures Silent(" - [$time_local] ")
  {
  }

  lemma DeniedLogFormatPiece3()
    ensures Silent("\"$request\" \'\n")
  {
  }

  lemma DeniedLogFormatPiece4()
    ensures Silent("                    ")
  {
  }

  lemma DeniedLogFormatPiece5()
    ensures Silent("  \'$status ")
  {
  }

  lemma DeniedLogFormatPiece6()
    ensures Silent("\"$http_user_agent\" ")
  {
  }

  lemma DeniedLogFormatPiece7()
    ensures Silent("\"$http_referer\" \'\n")
  {
  }

  lemma DeniedLogFormatPiece8()
    ensures Silent("                    ")
  {
  }

  lemma DeniedLogFormatPiece9()
    ensures Silent("  \'Host: \"$host\" ")
  {
  }

  lemma DeniedLogFormatPiece10()
    ensures Silent("URI: \"$request_uri\" ")
  {
  }

  lemma DeniedLogFormatPiece11()
    ensures Silent("\'\n")
  {
  }

  lemma DeniedLogFormatPiece12()
    ensures Silent("                    ")
  {
  }

  lemma DeniedLogFormatPiece13()
    ensures Silent("  \'Client: ")
  {
  }

  lemma DeniedLogFormatPiece14()
    ensures Silent("\"$remote_addr\" \'\n")
  {
  }

  lemma DeniedLogFormatPiece15()
    ensures Silent("                    ")
  {
  }

  lemma DeniedLogFormatPiece16()
    ensures Silent("  \'Reason: ")
  {
  }

  lemma DeniedLogFormatPiece17()
    ensures Silent("\"$deny_reason\"\';\n")
  {
  }

  lemma DeniedLogFormatSilent()
    ensures Silent(DeniedLogFormat())
  {
    DeniedLogFormatPiece0();
    var t := "    log_format ";
    DeniedLogFormatPiece1();
    SilentJoin(t, "denied \'$remote_addr");
    t := t + "denied \'$remote_addr";
    DeniedLogFormatPiece2();
    SilentJoin(t, " - [$time_local] ");
    t := t + " - [$time_local] ";
    DeniedLogFormatPiece3();
    SilentJoin(t, "\"$request\" \'\n");
    t := t + "\"$request\" \'\n";
    DeniedLogFormatPiece4();
    SilentJoin(t, "                    ");
    t := t + "                    ";
    DeniedLogFormatPiece5();
    SilentJoin(t, "  \'$status ");
    t := t + "  \'$status ";
    DeniedLogFormatPiece6();
    SilentJoin(t, "\"$http_user_agent\" ");
    t := t + "\"$http_user_agent\" ";
    DeniedLogFormatPiece7();
    SilentJoin(t, "\"$http_referer\" \'\n");
    t := t + "\"$http_referer\" \'\n";
    DeniedLogFormatPiece8();
    SilentJoin(t, "                    ");
    t := t + "                    ";
    DeniedLogFormatPiece9();
    SilentJoin(t, "  \'Host: \"$host\" ");
    t := t + "  \'Host: \"$host\" ";
    DeniedLogFormatPiece10();
    SilentJoin(t, "URI: \"$request_uri\" ");
    t := t + "URI: \"$request_uri\" ";
    DeniedLogFormatPiece11();
    SilentJoin(t, "\'\n");
    t := t + "\'\n";
    DeniedLogFormatPiece12();
    SilentJoin(t, "                    ");
    t := t + "                    ";
    DeniedLogFormatPiece13();
    SilentJoin(t, "  \'Client: ");
    t := t + "  \'Client: ";
    DeniedLogFormatPiece14();
    SilentJoin(t, "\"$remote_addr\" \'\n");
    t := t + "\"$remote_addr\" \'\n";
    DeniedLogFormatPiece15();
    SilentJoin(t, "                    ");
    t := t + "                    ";
    DeniedLogFormatPiece16();
    SilentJoin(t, "  \'Reason: ");
    t := t + "  \'Reason: ";
    DeniedLogFormatPiece17();
    SilentJoin(t, "\"$deny_reason\"\';\n");
    t := t + "\"$deny_reason\"\';\n";
  }

  lemma LogFilesPiece0()
    ensures Silent("    access_log ")
  {
  }

  lemma LogFilesPiece1()
    ensures Silent("/var/log/nginx/acces")
  {
  }

  lemma LogFilesPiece2()
    ensures Silent("s.log main;\n")
  {
  }

  lemma LogFilesPiece3()
    ensures Silent("    error_log ")
  {
  }

  lemma LogFilesPiece4()
    ensures Silent("/var/log/nginx/error")
  {
  }

  lemma LogFilesPiece5()
    ensures Silent(".log info;\n")
  {
  }

  lemma LogFilesPiece6()
    ensures Silent("    access_log ")
  {
  }

  lemma LogFilesPiece7()
    ensures Silent("/var/log/nginx/denie")
  {
  }

  lemma LogFilesPiece8()
    ensures Silent("d.log denied ")
  {
  }

  lemma LogFilesPiece9()
    ensures Silent("if=$deny_log;\n")
  {
  }

  lemma LogFilesSilent()
    ensures Silent(LogFiles())
  {
    LogFilesPiece0();
    var t := "    access_log ";
    LogFilesPiece1();
    SilentJoin(t, "/var/log/nginx/acces");
    t := t + "/var/log/nginx/acces";
    LogFilesPiece2();
    SilentJoin(t, "s.log main;\n");
    t := t + "s.log main;\n";
    LogFilesPiece3();
    SilentJoin(t, "    error_log ");
    t := t + "    error_log ";
    LogFilesPiece4();
    SilentJoin(t, "/var/log/nginx/error");
    t := t + "/var/log/nginx/error";
    LogFilesPiece5();
    SilentJoin(t, ".log info;\n");
    t := t + ".log info;\n";
    LogFilesPiece6();
    SilentJoin(t, "    access_log ");
    t := t + "    access_log ";
    LogFilesPiece7();
    SilentJoin(t, "/var/log/nginx/denie");
    t := t + "/var/log/nginx/denie";
    LogFilesPiece8();
    SilentJoin(t, "d.log denied ");
    t := t + "d.log denied ";
    LogFilesPiece9();
    SilentJoin(t, "if=$deny_log;\n");
    t := t + "if=$deny_log;\n";
  }

  lemma AclHeaderPiece0()
    ensures Silent("\n")
  {
  }

  lemma AclHeaderPiece1()
    ensures Silent("#===================")
  {
  }

  lemma AclHeaderPiece2()
    ensures Silent("====================")
  {
  }

  lemma AclHeaderPiece3()
    ensures Silent("====================")
  {
  }

  lemma AclHeaderPiece4()
    ensures Silent("===================\n")
  {
  }

  lemma AclHeaderPiece5()
    ensures Silent("    # Structured ")
  {
  }

  lemma AclHeaderPiece6()
    ensures Silent("ACL Definitions\n")
  {
  }

  lemma AclHeaderPiece7()
    ensures Silent("    # IP-based ACL ")
  {
  }

  lemma AclHeaderPiece8()
    ensures Silent("Groups\n")
  {
  }

  lemma AclHeaderSilent()
    ensures Silent(AclHeader())
  {
    AclHeaderPiece0();
    var t := "\n";
    AclHeaderPiece1();
    SilentJoin(t, "#===================");
    t := t + "#===================";
    AclHeaderPiece2();
    SilentJoin(t, "====================");
    t := t + "====================";
    AclHeaderPiece3();
    SilentJoin(t, "====================");
    t := t + "====================";
    AclHeaderPiece4();
    SilentJoin(t, "===================\n");
    t := t + "===================\n";
    AclHeaderPiece5();
    SilentJoin(t, "    # Structured ");
    t := t + "    # Structured ";
    AclHeaderPiece6();
    SilentJoin(t, "ACL Definitions\n");
    t := t + "ACL Definitions\n";
    AclHeaderPiece7();
    SilentJoin(t, "    # IP-based ACL ");
    t := t + "    # IP-based ACL ";
    AclHeaderPiece8();
    SilentJoin(t, "Groups\n");
    t := t + "Groups\n";
  }

  lemma IpAclFallbackPiece0()
    ensures Silent("    map \"$acl_intern")
  {
  }

  lemma IpAclFallbackPiece1()
    ensures Silent("al_ips$acl_test_ips\"")
  {
  }

  lemma IpAclFallbackPiece2()
    ensures Silent(" $ip_acl {\n")
  {
  }

  lemma IpAclFallbackPiece3()
    ensures Silent("        \"~*1\" 1;  # ")
  {
  }

  lemma IpAclFallbackPiece4()
    ensures Silent("Allow if either ")
  {
  }

  lemma IpAclFallbackPiece5()
    ensures Silent("internal or test ")
  {
  }

  lemma IpAclFallbackPiece6()
    ensures Silent("IPs match\n")
  {
  }

  lemma IpAclFallbackSilent()
    ensures Silent(IpAclFallback())
  {
    IpAclFallbackPiece0();
    var t := "    map \"$acl_intern";
    IpAclFallbackPiece1();
    SilentJoin(t, "al_ips$acl_test_ips\"");
    t := t + "al_ips$acl_test_ips\"";
    IpAclFallbackPiece2();
    SilentJoin(t, " $ip_acl {\n");
    t := t + " $ip_acl {\n";
    DefaultLineSilent();
    SilentJoin(t, DefaultLine());
    t := t + DefaultLine();
    IpAclFallbackPiece3();
    SilentJoin(t, "        \"~*1\" 1;  # ");
    t := t + "        \"~*1\" 1;  # ";
    IpAclFallbackPiece4();
    SilentJoin(t, "Allow if either ");
    t := t + "Allow if either ";
    IpAclFallbackPiece5();
    SilentJoin(t, "internal or test ");
    t := t + "internal or test ";
    IpAclFallbackPiece6();
    SilentJoin(t, "IPs match\n");
    t := t + "IPs match\n";
    BlockEndSilent();
    SilentJoin(t, BlockEnd());
    t := t + BlockEnd();
  }

  lemma UrlAclFallbackPiece0()
    ensures Silent("    map \"$acl_micros")
  {
  }

  lemma UrlAclFallbackPiece1()
    ensures Silent("oft_urls$acl_redhat_")
  {
  }

  lemma UrlAclFallbackPiece2()
    ensures Silent("urls$acl_cdn_urls\" ")
  {
  }

  lemma UrlAclFallbackPiece3()
    ensures Silent("$url_acl {\n")
  {
  }

  lemma UrlAclFallbackPiece4()
    ensures Silent("        \"~*1\" 1;  # ")
  {
  }

  lemma UrlAclFallbackPiece5()
    ensures Silent("Allow if any URL ")
  {
  }

  lemma UrlAclFallbackPiece6()
    ensures Silent("group matches\n")
  {
  }

  lemma UrlAclFallbackSilent()
    ensures Silent(UrlAclFallback())
  {
    UrlAclFallbackPiece0();
    var t := "    map \"$acl_micros";
    UrlAclFallbackPiece1();
    SilentJoin(t, "oft_urls$acl_redhat_");
    t := t + "oft_urls$acl_redhat_";
    UrlAclFallbackPiece2();
    SilentJoin(t, "urls$acl_cdn_urls\" ");
    t := t + "urls$acl_cdn_urls\" ";
    UrlAclFallbackPiece3();
    SilentJoin(t, "$url_acl {\n");
    t := t + "$url_acl {\n";
    DefaultLineSilent();
    SilentJoin(t, DefaultLine());
    t := t + DefaultLine();
    UrlAclFallbackPiece4();
    SilentJoin(t, "        \"~*1\" 1;  # ");
    t := t + "        \"~*1\" 1;  # ";
    UrlAclFallbackPiece5();
    SilentJoin(t, "Allow if any URL ");
    t := t + "Allow if any URL ";
    UrlAclFallbackPiece6();
    SilentJoin(t, "group matches\n");
    t := t + "group matches\n";
    BlockEndSilent();
    SilentJoin(t, BlockEnd());
    t := t + BlockEnd();
  }

  lemma AccessFallbackPiece0()
    ensures Silent("    # Final Access ")
  {
  }

  lemma AccessFallbackPiece1()
    ensures Silent("Decision\n")
  {
  }

  lemma AccessFallbackPiece2()
    ensures Silent("    map \"$ip_acl$url")
  {
  }

  lemma AccessFallbackPiece3()
    ensures Silent("_acl\" $access_grante")
  {
  }

  lemma AccessFallbackPiece4()
    ensures Silent("d {\n")
  {
  }

  lemma AccessFallbackPiece5()
    ensures Silent("        \"11\" 1;  # ")
  {
  }

  lemma AccessFallbackPiece6()
    ensures Silent("Both IP and URL ")
  {
  }

  lemma AccessFallbackPiece7()
    ensures Silent("must be allowed\n")
  {
  }

  lemma AccessFallbackSilent()
    ensures Silent(AccessFallback())
  {
    AccessFallbackPiece0();
    var t := "    # Final Access ";
    AccessFallbackPiece1();
    SilentJoin(t, "Decision\n");
    t := t + "Decision\n";
    AccessFallbackPiece2();
    SilentJoin(t, "    map \"$ip_acl$url");
    t := t + "    map \"$ip_acl$url";
    AccessFallbackPiece3();
    SilentJoin(t, "_acl\" $access_grante");
    t := t + "_acl\" $access_grante";
    AccessFallbackPiece4();
    SilentJoin(t, "d {\n");
    t := t + "d {\n";
    DefaultLineSilent();
    SilentJoin(t, DefaultLine());
    t := t + DefaultLine();
    AccessFallbackPiece5();
    SilentJoin(t, "        \"11\" 1;  # ");
    t := t + "        \"11\" 1;  # ";
    AccessFallbackPiece6();
    SilentJoin(t, "Both IP and URL ");
    t := t + "Both IP and URL ";
    AccessFallbackPiece7();
    SilentJoin(t, "must be allowed\n");
    t := t + "must be allowed\n";
    BlockEndSilent();
    SilentJoin(t, BlockEnd());
    t := t + BlockEnd();
  }

  lemma DenyMapPiece0()
    ensures Silent("    # Denial ")
  {
  }

  lemma DenyMapPiece1()
    ensures Silent("Reasons Mapping\n")
  {
  }

  lemma DenyMapPiece2()
    ensures Silent("    map \"$ip_acl$url")
  {
  }

  lemma DenyMapPiece3()
    ensures Silent("_acl\" $deny_reason ")
  {
  }

  lemma DenyMapPiece4()
    ensures Silent("{\n")
  {
  }

  lemma DenyMapPiece5()
    ensures Silent("        \"00\" \"Both ")
  {
  }

  lemma DenyMapPiece6()
    ensures Silent("IP and URL not ")
  {
  }

  lemma DenyMapPiece7()
    ensures Silent("allowed\";\n")
  {
  }

  lemma DenyMapPiece8()
    ensures Silent("        \"01\" \"IP ")
  {
  }

  lemma DenyMapPiece9()
    ensures Silent("not whitelisted\";\n")
  {
  }

  lemma DenyMapPiece10()
    ensures Silent("        \"10\" \"URL ")
  {
  }

  lemma DenyMapPiece11()
    ensures Silent("not allowed\";\n")
  {
  }

  lemma DenyMapPiece12()
    ensures Silent("        default \"\";\n")
  {
  }

  lemma DenyMapSilent()
    ensures Silent(DenyMap())
  {
    DenyMapPiece0();
    var t := "    # Denial ";
    DenyMapPiece1();
    SilentJoin(t, "Reasons Mapping\n");
    t := t + "Reasons Mapping\n";
    DenyMapPiece2();
    SilentJoin(t, "    map \"$ip_acl$url");
    t := t + "    map \"$ip_acl$url";
    DenyMapPiece3();
    SilentJoin(t, "_acl\" $deny_reason ");
    t := t + "_acl\" $deny_reason ";
    DenyMapPiece4();
    SilentJoin(t, "{\n");
    t := t + "{\n";
    DenyMapPiece5();
    SilentJoin(t, "        \"00\" \"Both ");
    t := t + "        \"00\" \"Both ";
    DenyMapPiece6();
    SilentJoin(t, "IP and URL not ");
    t := t + "IP and URL not ";
    DenyMapPiece7();
    SilentJoin(t, "allowed\";\n");
    t := t + "allowed\";\n";
    DenyMapPiece8();
    SilentJoin(t, "        \"01\" \"IP ");
    t := t + "        \"01\" \"IP ";
    DenyMapPiece9();
    SilentJoin(t, "not whitelisted\";\n");
    t := t + "not whitelisted\";\n";
    DenyMapPiece10();
    SilentJoin(t, "        \"10\" \"URL ");
    t := t + "        \"10\" \"URL ";
    DenyMapPiece11();
    SilentJoin(t, "not allowed\";\n");
    t := t + "not allowed\";\n";
    DenyMapPiece12();
    SilentJoin(t, "        default \"\";\n");
    t := t + "        default \"\";\n";
    BlockEndSilent();
    SilentJoin(t, BlockEnd());
    t := t + BlockEnd();
  }

  lemma EditMarkerPiece0()
    ensures Silent("# END OF CODE TO ")
  {
  }

  lemma EditMarkerPiece1()
    ensures Silent("EDIT, DO NOT EDIT ")
  {
  }

  lemma EditMarkerPiece2()
    ensures Silent("BELOW.\n")
  {
  }

  lemma EditMarkerPiece3()
    ensures Silent("# ==================")
  {
  }

  lemma EditMarkerPiece4()
    ensures Silent("====================")
  {
  }

  lemma EditMarkerPiece5()
    ensures Silent("====================")
  {
  }

  lemma EditMarkerPiece6()
    ensures Silent("====================")
  {
  }

  lemma EditMarkerPiece7()
    ensures Silent("\n")
  {
  }

  lemma EditMarkerSilent()
    ensures Silent(EditMarker())
  {
    EditMarkerPiece0();
    var t := "# END OF CODE TO ";
    EditMarkerPiece1();
    SilentJoin(t, "EDIT, DO NOT EDIT ");
    t := t + "EDIT, DO NOT EDIT ";
    EditMarkerPiece2();
    SilentJoin(t, "BELOW.\n");
    t := t + "BELOW.\n";
    EditMarkerPiece3();
    SilentJoin(t, "# ==================");
    t := t + "# ==================";
    EditMarkerPiece4();
    SilentJoin(t, "====================");
    t := t + "====================";
    EditMarkerPiece5();
    SilentJoin(t, "====================");
    t := t + "====================";
    EditMarkerPiece6();
    SilentJoin(t, "====================");
    t := t + "====================";
    EditMarkerPiece7();
    SilentJoin(t, "\n");
    t := t + "\n";
  }

  lemma ServerStartPiece0()
    ensures Silent("    server {\n")
  {
  }

  lemma ServerStartPiece1()
    ensures Silent("        listen ")
  {
  }

  lemma ServerStartPiece2()
    ensures Silent("8080;\n")
  {
  }

  lemma ServerStartPiece3()
    ensures Silent("        resolver ")
  {
  }

  lemma ServerStartPiece4()
    ensures Silent("8.8.8.8 1.1.1.1 ")
  {
  }

  lemma ServerStartPiece5()
    ensures Silent("ipv6=off;\n")
  {
  }

  lemma ServerStartPiece6()
    ensures Silent("\n")
  {
  }

  lemma ServerStartPiece7()
    ensures Silent("        # ")
  {
  }

  lemma ServerStartPiece8()
    ensures Silent("Centralized ACL ")
  {
  }

  lemma ServerStartPiece9()
    ensures Silent("Check\n")
  {
  }

  lemma ServerStartSilent()
    ensures Silent(ServerStart())
  {
    ServerStartPiece0();
    var t := "    server {\n";
    ServerStartPiece1();
    SilentJoin(t, "        listen ");
    t := t + "        listen ";
    ServerStartPiece2();
    SilentJoin(t, "8080;\n");
    t := t + "8080;\n";
    ServerStartPiece3();
    SilentJoin(t, "        resolver ");
    t := t + "        resolver ";
    ServerStartPiece4();
    SilentJoin(t, "8.8.8.8 1.1.1.1 ");
    t := t + "8.8.8.8 1.1.1.1 ";
    ServerStartPiece5();
    SilentJoin(t, "ipv6=off;\n");
    t := t + "ipv6=off;\n";
    ServerStartPiece6();
    SilentJoin(t, "\n");
    t := t + "\n";
    ServerStartPiece7();
    SilentJoin(t, "        # ");
    t := t + "        # ";
    ServerStartPiece8();
    SilentJoin(t, "Centralized ACL ");
    t := t + "Centralized ACL ";
    ServerStartPiece9();
    SilentJoin(t, "Check\n");
    t := t + "Check\n";
  }

  lemma ServerCheckPiece0()
    ensures Silent("        ")
  {
  }

  lemma ServerCheckPiece1()
    ensures Silent("if ($")
  {
  }

  lemma ServerCheckPiece2()
    ensures Silent("access_granted")
  {
  }

  lemma ServerCheckPiece3()
    ensures Silent(" = 0)")
  {
  }

  lemma ServerCheckPiece4()
    ensures Silent(" {\n")
  {
  }

  lemma ServerCheckSilent()
    ensures Silent(ServerCheck())
  {
    ServerCheckPiece0();
    var t := "        ";
    ServerCheckPiece1();
    SilentJoin(t, "if ($");
    t := t + "if ($";
    ServerCheckPiece2();
    SilentJoin(t, "access_granted");
    t := t + "access_granted";
    ServerCheckPiece3();
    SilentJoin(t, " = 0)");
    t := t + " = 0)";
    ServerCheckPiece4();
    SilentJoin(t, " {\n");
    t := t + " {\n";
  }

  lemma ServerDenyPiece0()
    ensures Silent("            return ")
  {
  }

  lemma ServerDenyPiece1()
    ensures Silent("403 \"Access Denied: ")
  {
  }

  lemma ServerDenyPiece2()
    ensures Silent("$deny_reason\";\n")
  {
  }

  lemma ServerDenyPiece3()
    ensures Silent("        }\n")
  {
  }

  lemma ServerDenyPiece4()
    ensures Silent("\n")
  {
  }

  lemma ServerDenySilent()
    ensures Silent(ServerDeny())
  {
    ServerDenyPiece0();
    var t := "            return ";
    ServerDenyPiece1();
    SilentJoin(t, "403 \"Access Denied: ");
    t := t + "403 \"Access Denied: ";
    ServerDenyPiece2();
    SilentJoin(t, "$deny_reason\";\n");
    t := t + "$deny_reason\";\n";
    ServerDenyPiece3();
    SilentJoin(t, "        }\n");
    t := t + "        }\n";
    ServerDenyPiece4();
    SilentJoin(t, "\n");
    t := t + "\n";
  }

  lemma ProxyConnectPiece0()
    ensures Silent("        # Security ")
  {
  }

  lemma ProxyConnectPiece1()
    ensures Silent("headers and proxy ")
  {
  }

  lemma ProxyConnectPiece2()
    ensures Silent("settings remain ")
  {
  }

  lemma ProxyConnectPiece3()
    ensures Silent("unchanged\n")
  {
  }

  lemma ProxyConnectPiece4()
    ensures Silent("        ")
  {
  }

  lemma ProxyConnectPiece5()
    ensures Silent("proxy_connect;\n")
  {
  }

  lemma ProxyConnectPiece6()
    ensures Silent("        ")
  {
  }

  lemma ProxyConnectPiece7()
    ensures Silent("proxy_connect_allow ")
  {
  }

  lemma ProxyConnectPiece8()
    ensures Silent("all;\n")
  {
  }

  lemma ProxyConnectPiece9()
    ensures Silent("        ")
  {
  }

  lemma ProxyConnectPiece10()
    ensures Silent("proxy_connect_connec")
  {
  }

  lemma ProxyConnectPiece11()
    ensures Silent("t_timeout 10s;\n")
  {
  }

  lemma ProxyConnectPiece12()
    ensures Silent("        ")
  {
  }

  lemma ProxyConnectPiece13()
    ensures Silent("proxy_connect_read_t")
  {
  }

  lemma ProxyConnectPiece14()
    ensures Silent("imeout 60s;\n")
  {
  }

  lemma ProxyConnectPiece15()
    ensures Silent("        ")
  {
  }

  lemma ProxyConnectPiece16()
    ensures Silent("proxy_connect_send_t")
  {
  }

  lemma ProxyConnectPiece17()
    ensures Silent("imeout 60s;\n")
  {
  }

  lemma ProxyConnectPiece18()
    ensures Silent("\n")
  {
  }

  lemma ProxyConnectSilent()
    ensures Silent(ProxyConnect())
  {
    ProxyConnectPiece0();
    var t := "        # Security ";
    ProxyConnectPiece1();
    SilentJoin(t, "headers and proxy ");
    t := t + "headers and proxy ";
    ProxyConnectPiece2();
    SilentJoin(t, "settings remain ");
    t := t + "settings remain ";
    ProxyConnectPiece3();
    SilentJoin(t, "unchanged\n");
    t := t + "unchanged\n";
    ProxyConnectPiece4();
    SilentJoin(t, "        ");
    t := t + "        ";
    ProxyConnectPiece5();
    SilentJoin(t, "proxy_connect;\n");
    t := t + "proxy_connect;\n";
    ProxyConnectPiece6();
    SilentJoin(t, "        ");
    t := t + "        ";
    ProxyConnectPiece7();
    SilentJoin(t, "proxy_connect_allow ");
    t := t + "proxy_connect_allow ";
    ProxyConnectPiece8();
    SilentJoin(t, "all;\n");
    t := t + "all;\n";
    ProxyConnectPiece9();
    SilentJoin(t, "        ");
    t := t + "        ";
    ProxyConnectPiece10();
    SilentJoin(t, "proxy_connect_connec");
    t := t + "proxy_connect_connec";
    ProxyConnectPiece11();
    SilentJoin(t, "t_timeout 10s;\n");
    t := t + "t_timeout 10s;\n";
    ProxyConnectPiece12();
    SilentJoin(t, "        ");
    t := t + "        ";
    ProxyConnectPiece13();
    SilentJoin(t, "proxy_connect_read_t");
    t := t + "proxy_connect_read_t";
    ProxyConnectPiece14();
    SilentJoin(t, "imeout 60s;\n");
    t := t + "imeout 60s;\n";
    ProxyConnectPiece15();
    SilentJoin(t, "        ");
    t := t + "        ";
    ProxyConnectPiece16();
    SilentJoin(t, "proxy_connect_send_t");
    t := t + "proxy_connect_send_t";
    ProxyConnectPiece17();
    SilentJoin(t, "imeout 60s;\n");
    t := t + "imeout 60s;\n";
    ProxyConnectPiece18();
    SilentJoin(t, "\n");
    t := t + "\n";
  }

  lemma HiddenHeadersPiece0()
    ensures Silent("        ")
  {
  }

  lemma HiddenHeadersPiece1()
    ensures Silent("proxy_hide_header ")
  {
  }

  lemma HiddenHeadersPiece2()
    ensures Silent("Upgrade;\n")
  {
  }

  lemma HiddenHeadersPiece3()
    ensures Silent("        ")
  {
  }

  lemma HiddenHeadersPiece4()
    ensures Silent("proxy_hide_header ")
  {
  }

  lemma HiddenHeadersPiece5()
    ensures Silent("X-Powered-By;\n")
  {
  }

  lemma HiddenHeadersSilent()
    ensures Silent(HiddenHeaders())
  {
    HiddenHeadersPiece0();
    var t := "        ";
    HiddenHeadersPiece1();
    SilentJoin(t, "proxy_hide_header ");
    t := t + "proxy_hide_header ";
    HiddenHeadersPiece2();
    SilentJoin(t, "Upgrade;\n");
    t := t + "Upgrade;\n";
    HiddenHeadersPiece3();
    SilentJoin(t, "        ");
    t := t + "        ";
    HiddenHeadersPiece4();
    SilentJoin(t, "proxy_hide_header ");
    t := t + "proxy_hide_header ";
    HiddenHeadersPiece5();
    SilentJoin(t, "X-Powered-By;\n");
    t := t + "X-Powered-By;\n";
  }

  lemma SecurityHeadersPiece0()
    ensures Silent("        add_header ")
  {
  }

  lemma SecurityHeadersPiece1()
    ensures Silent("Content-Security-Pol")
  {
  }

  lemma SecurityHeadersPiece2()
    ensures Silent("icy \"upgrade-insecur")
  {
  }

  lemma SecurityHeadersPiece3()
    ensures Silent("e-requests\";\n")
  {
  }

  lemma SecurityHeadersPiece4()
    ensures Silent("        add_header ")
  {
  }

  lemma SecurityHeadersPiece5()
    ensures Silent("X-Frame-Options ")
  {
  }

  lemma SecurityHeadersPiece6()
    ensures Silent("\"SAMEORIGIN\";\n")
  {
  }

  lemma SecurityHeadersPiece7()
    ensures Silent("        add_header ")
  {
  }

  lemma SecurityHeadersPiece8()
    ensures Silent("X-XSS-Protection ")
  {
  }

  lemma SecurityHeadersPiece9()
    ensures Silent("\"1; mode=block\" ")
  {
  }

  lemma SecurityHeadersPiece10()
    ensures Silent("always;\n")
  {
  }

  lemma SecurityHeadersPiece11()
    ensures Silent("        add_header ")
  {
  }

  lemma SecurityHeadersPiece12()
    ensures Silent("X-Content-Type-Optio")
  {
  }

  lemma SecurityHeadersPiece13()
    ensures Silent("ns \"nosniff\" ")
  {
  }

  lemma SecurityHeadersPiece14()
    ensures Silent("always;\n")
  {
  }

  lemma SecurityHeadersSilent()
    ensures Silent(SecurityHeaders())
  {
    SecurityHeadersPiece0();
    var t := "        add_header ";
    SecurityHeadersPiece1();
    SilentJoin(t, "Content-Security-Pol");
    t := t + "Content-Security-Pol";
    SecurityHeadersPiece2();
    SilentJoin(t, "icy \"upgrade-insecur");
    t := t + "icy \"upgrade-insecur";
    SecurityHeadersPiece3();
    SilentJoin(t, "e-requests\";\n");
    t := t + "e-requests\";\n";
    SecurityHeadersPiece4();
    SilentJoin(t, "        add_header ");
    t := t + "        add_header ";
    SecurityHeadersPiece5();
    SilentJoin(t, "X-Frame-Options ");
    t := t + "X-Frame-Options ";
    SecurityHeadersPiece6();
    SilentJoin(t, "\"SAMEORIGIN\";\n");
    t := t + "\"SAMEORIGIN\";\n";
    SecurityHeadersPiece7();
    SilentJoin(t, "        add_header ");
    t := t + "        add_header ";
    SecurityHeadersPiece8();
    SilentJoin(t, "X-XSS-Protection ");
    t := t + "X-XSS-Protection ";
    SecurityHeadersPiece9();
    SilentJoin(t, "\"1; mode=block\" ");
    t := t + "\"1; mode=block\" ";
    SecurityHeadersPiece10();
    SilentJoin(t, "always;\n");
    t := t + "always;\n";
    SecurityHeadersPiece11();
    SilentJoin(t, "        add_header ");
    t := t + "        add_header ";
    SecurityHeadersPiece12();
    SilentJoin(t, "X-Content-Type-Optio");
    t := t + "X-Content-Type-Optio";
    SecurityHeadersPiece13();
    SilentJoin(t, "ns \"nosniff\" ");
    t := t + "ns \"nosniff\" ";
    SecurityHeadersPiece14();
    SilentJoin(t, "always;\n");
    t := t + "always;\n";
  }

  lemma CacheHeadersPiece0()
    ensures Silent("        add_header ")
  {
  }

  lemma CacheHeadersPiece1()
    ensures Silent("Cache-Control ")
  {
  }

  lemma CacheHeadersPiece2()
    ensures Silent("\"no-transform\" ")
  {
  }

  lemma CacheHeadersPiece3()
    ensures Silent("always;\n")
  {
  }

  lemma CacheHeadersPiece4()
    ensures Silent("        add_header ")
  {
  }

  lemma CacheHeadersPiece5()
    ensures Silent("Referrer-Policy ")
  {
  }

  lemma CacheHeadersPiece6()
    ensures Silent("no-referrer always;\n")
  {
  }

  lemma CacheHeadersPiece7()
    ensures Silent("        add_header ")
  {
  }

  lemma CacheHeadersPiece8()
    ensures Silent("X-Robots-Tag none;\n")
  {
  }

  lemma CacheHeadersPiece9()
    ensures Silent("\n")
  {
  }

  lemma CacheHeadersSilent()
    ensures Silent(CacheHeaders())
  {
    CacheHeadersPiece0();
    var t := "        add_header ";
    CacheHeadersPiece1();
    SilentJoin(t, "Cache-Control ");
    t := t + "Cache-Control ";
    CacheHeadersPiece2();
    SilentJoin(t, "\"no-transform\" ");
    t := t + "\"no-transform\" ";
    CacheHeadersPiece3();
    SilentJoin(t, "always;\n");
    t := t + "always;\n";
    CacheHeadersPiece4();
    SilentJoin(t, "        add_header ");
    t := t + "        add_header ";
    CacheHeadersPiece5();
    SilentJoin(t, "Referrer-Policy ");
    t := t + "Referrer-Policy ";
    CacheHeadersPiece6();
    SilentJoin(t, "no-referrer always;\n");
    t := t + "no-referrer always;\n";
    CacheHeadersPiece7();
    SilentJoin(t, "        add_header ");
    t := t + "        add_header ";
    CacheHeadersPiece8();
    SilentJoin(t, "X-Robots-Tag none;\n");
    t := t + "X-Robots-Tag none;\n";
    CacheHeadersPiece9();
    SilentJoin(t, "\n");
    t := t + "\n";
  }

  lemma LocationStartPiece0()
    ensures Silent("        location / ")
  {
  }

  lemma LocationStartPiece1()
    ensures Silent("{\n")
  {
  }

  lemma LocationStartPiece2()
    ensures Silent("            # ")
  {
  }

  lemma LocationStartPiece3()
    ensures Silent("Single ACL check ")
  {
  }

  lemma LocationStartPiece4()
    ensures Silent("instead of ")
  {
  }

  lemma LocationStartPiece5()
    ensures Silent("duplicate ")
  {
  }

  lemma LocationStartPiece6()
    ensures Silent("validations\n")
  {
  }

  lemma LocationStartSilent()
    ensures Silent(LocationStart())
  {
    LocationStartPiece0();
    var t := "        location / ";
    LocationStartPiece1();
    SilentJoin(t, "{\n");
    t := t + "{\n";
    LocationStartPiece2();
    SilentJoin(t, "            # ");
    t := t + "            # ";
    LocationStartPiece3();
    SilentJoin(t, "Single ACL check ");
    t := t + "Single ACL check ";
    LocationStartPiece4();
    SilentJoin(t, "instead of ");
    t := t + "instead of ";
    LocationStartPiece5();
    SilentJoin(t, "duplicate ");
    t := t + "duplicate ";
    LocationStartPiece6();
    SilentJoin(t, "validations\n");
    t := t + "validations\n";
  }

  lemma LocationCheckPiece0()
    ensures Silent("            ")
  {
  }

  lemma LocationCheckPiece1()
    ensures Silent("if ($")
  {
  }

  lemma LocationCheckPiece2()
    ensures Silent("access_granted")
  {
  }

  lemma LocationCheckPiece3()
    ensures Silent(" = 0)")
  {
  }

  lemma LocationCheckPiece4()
    ensures Silent(" {\n")
  {
  }

  lemma LocationCheckSilent()
    ensures Silent(LocationCheck())
  {
    LocationCheckPiece0();
    var t := "            ";
    LocationCheckPiece1();
    SilentJoin(t, "if ($");
    t := t + "if ($";
    LocationCheckPiece2();
    SilentJoin(t, "access_granted");
    t := t + "access_granted";
    LocationCheckPiece3();
    SilentJoin(t, " = 0)");
    t := t + " = 0)";
    LocationCheckPiece4();
    SilentJoin(t, " {\n");
    t := t + " {\n";
  }

  lemma LocationDenyPiece0()
    ensures Silent("                set ")
  {
  }

  lemma LocationDenyPiece1()
    ensures Silent("$deny_reason ")
  {
  }

  lemma LocationDenyPiece2()
    ensures Silent("\"$deny_reason ")
  {
  }

  lemma LocationDenyPiece3()
    ensures Silent("(")
  {
  }

  lemma LocationDenyPiece4()
    ensures Silent("location level)\";\n")
  {
  }

  lemma LocationDenyPiece5()
    ensures Silent("                ")
  {
  }

  lemma LocationDenyPiece6()
    ensures Silent("return 403 \"Access ")
  {
  }

  lemma LocationDenyPiece7()
    ensures Silent("Denied: ")
  {
  }

  lemma LocationDenyPiece8()
    ensures Silent("$deny_reason\";\n")
  {
  }

  lemma LocationDenyPiece9()
    ensures Silent("            }\n")
  {
  }

  lemma LocationDenyPiece10()
    ensures Silent("\n")
  {
  }

  lemma LocationDenySilent()
    ensures Silent(LocationDeny())
  {
    LocationDenyPiece0();
    var t := "                set ";
    LocationDenyPiece1();
    SilentJoin(t, "$deny_reason ");
    t := t + "$deny_reason ";
    LocationDenyPiece2();
    SilentJoin(t, "\"$deny_reason ");
    t := t + "\"$deny_reason ";
    LocationDenyPiece3();
    SilentJoin(t, "(");
    t := t + "(";
    LocationDenyPiece4();
    SilentJoin(t, "location level)\";\n");
    t := t + "location level)\";\n";
    LocationDenyPiece5();
    SilentJoin(t, "                ");
    t := t + "                ";
    LocationDenyPiece6();
    SilentJoin(t, "return 403 \"Access ");
    t := t + "return 403 \"Access ";
    LocationDenyPiece7();
    SilentJoin(t, "Denied: ");
    t := t + "Denied: ";
    LocationDenyPiece8();
    SilentJoin(t, "$deny_reason\";\n");
    t := t + "$deny_reason\";\n";
    LocationDenyPiece9();
    SilentJoin(t, "            }\n");
    t := t + "            }\n";
    LocationDenyPiece10();
    SilentJoin(t, "\n");
    t := t + "\n";
  }

  lemma ProxyingPiece0()
    ensures Silent("            ")
  {
  }

  lemma ProxyingPiece1()
    ensures Silent("proxy_http_version ")
  {
  }

  lemma ProxyingPiece2()
    ensures Silent("1.1;\n")
  {
  }

  lemma ProxyingPiece3()
    ensures Silent("            ")
  {
  }

  lemma ProxyingPiece4()
    ensures Silent("proxy_set_header ")
  {
  }

  lemma ProxyingPiece5()
    ensures Silent("Host $host;\n")
  {
  }

  lemma ProxyingPiece6()
    ensures Silent("            ")
  {
  }

  lemma ProxyingPiece7()
    ensures Silent("proxy_set_header ")
  {
  }

  lemma ProxyingPiece8()
    ensures Silent("Connection \"\";\n")
  {
  }

  lemma ProxyingPiece9()
    ensures Silent("            ")
  {
  }

  lemma ProxyingPiece10()
    ensures Silent("proxy_pass ")
  {
  }

  lemma ProxyingPiece11()
    ensures Silent("$scheme://$host$requ")
  {
  }

  lemma ProxyingPiece12()
    ensures Silent("est_uri;\n")
  {
  }

  lemma ProxyingPiece13()
    ensures Silent("\n")
  {
  }

  lemma ProxyingSilent()
    ensures Silent(Proxying())
  {
    ProxyingPiece0();
    var t := "            ";
    ProxyingPiece1();
    SilentJoin(t, "proxy_http_version ");
    t := t + "proxy_http_version ";
    ProxyingPiece2();
    SilentJoin(t, "1.1;\n");
    t := t + "1.1;\n";
    ProxyingPiece3();
    SilentJoin(t, "            ");
    t := t + "            ";
    ProxyingPiece4();
    SilentJoin(t, "proxy_set_header ");
    t := t + "proxy_set_header ";
    ProxyingPiece5();
    SilentJoin(t, "Host $host;\n");
    t := t + "Host $host;\n";
    ProxyingPiece6();
    SilentJoin(t, "            ");
    t := t + "            ";
    ProxyingPiece7();
    SilentJoin(t, "proxy_set_header ");
    t := t + "proxy_set_header ";
    ProxyingPiece8();
    SilentJoin(t, "Connection \"\";\n");
    t := t + "Connection \"\";\n";
    ProxyingPiece9();
    SilentJoin(t, "            ");
    t := t + "            ";
    ProxyingPiece10();
    SilentJoin(t, "proxy_pass ");
    t := t + "proxy_pass ";
    ProxyingPiece11();
    SilentJoin(t, "$scheme://$host$requ");
    t := t + "$scheme://$host$requ";
    ProxyingPiece12();
    SilentJoin(t, "est_uri;\n");
    t := t + "est_uri;\n";
    ProxyingPiece13();
    SilentJoin(t, "\n");
    t := t + "\n";
  }

  lemma ForwardedHeadersPiece0()
    ensures Silent("            ")
  {
  }

  lemma ForwardedHeadersPiece1()
    ensures Silent("proxy_set_header ")
  {
  }

  lemma ForwardedHeadersPiece2()
    ensures Silent("X-Real-IP ")
  {
  }

  lemma ForwardedHeadersPiece3()
    ensures Silent("$remote_addr;\n")
  {
  }

  lemma ForwardedHeadersPiece4()
    ensures Silent("            ")
  {
  }

  lemma ForwardedHeadersPiece5()
    ensures Silent("proxy_set_header ")
  {
  }

  lemma ForwardedHeadersPiece6()
    ensures Silent("X-Forwarded-For ")
  {
  }

  lemma ForwardedHeadersPiece7()
    ensures Silent("$proxy_add_x_forward")
  {
  }

  lemma ForwardedHeadersPiece8()
    ensures Silent("ed_for;\n")
  {
  }

  lemma ForwardedHeadersPiece9()
    ensures Silent("            ")
  {
  }

  lemma ForwardedHeadersPiece10()
    ensures Silent("proxy_set_header ")
  {
  }

  lemma ForwardedHeadersPiece11()
    ensures Silent("X-Forwarded-Proto ")
  {
  }

  lemma ForwardedHeadersPiece12()
    ensures Silent("$scheme;\n")
  {
  }

  lemma ForwardedHeadersPiece13()
    ensures Silent("\n")
  {
  }

  lemma ForwardedHeadersSilent()
    ensures Silent(ForwardedHeaders())
  {
    ForwardedHeadersPiece0();
    var t := "            ";
    ForwardedHeadersPiece1();
    SilentJoin(t, "proxy_set_header ");
    t := t + "proxy_set_header ";
    ForwardedHeadersPiece2();
    SilentJoin(t, "X-Real-IP ");
    t := t + "X-Real-IP ";
    ForwardedHeadersPiece3();
    SilentJoin(t, "$remote_addr;\n");
    t := t + "$remote_addr;\n";
    ForwardedHeadersPiece4();
    SilentJoin(t, "            ");
    t := t + "            ";
    ForwardedHeadersPiece5();
    SilentJoin(t, "proxy_set_header ");
    t := t + "proxy_set_header ";
    ForwardedHeadersPiece6();
    SilentJoin(t, "X-Forwarded-For ");
    t := t + "X-Forwarded-For ";
    ForwardedHeadersPiece7();
    SilentJoin(t, "$proxy_add_x_forward");
    t := t + "$proxy_add_x_forward";
    ForwardedHeadersPiece8();
    SilentJoin(t, "ed_for;\n");
    t := t + "ed_for;\n";
    ForwardedHeadersPiece9();
    SilentJoin(t, "            ");
    t := t + "            ";
    ForwardedHeadersPiece10();
    SilentJoin(t, "proxy_set_header ");
    t := t + "proxy_set_header ";
    ForwardedHeadersPiece11();
    SilentJoin(t, "X-Forwarded-Proto ");
    t := t + "X-Forwarded-Proto ";
    ForwardedHeadersPiece12();
    SilentJoin(t, "$scheme;\n");
    t := t + "$scheme;\n";
    ForwardedHeadersPiece13();
    SilentJoin(t, "\n");
    t := t + "\n";
  }

  lemma TimeoutsPiece0()
    ensures Silent("            ")
  {
  }

  lemma TimeoutsPiece1()
    ensures Silent("proxy_connect_timeou")
  {
  }

  lemma TimeoutsPiece2()
    ensures Silent("t 10s;\n")
  {
  }

  lemma TimeoutsPiece3()
    ensures Silent("            ")
  {
  }

  lemma TimeoutsPiece4()
    ensures Silent("proxy_send_timeout ")
  {
  }

  lemma TimeoutsPiece5()
    ensures Silent("60s;\n")
  {
  }

  lemma TimeoutsPiece6()
    ensures Silent("            ")
  {
  }

  lemma TimeoutsPiece7()
    ensures Silent("proxy_read_timeout ")
  {
  }

  lemma TimeoutsPiece8()
    ensures Silent("60s;\n")
  {
  }

  lemma TimeoutsPiece9()
    ensures Silent("        }\n")
  {
  }

  lemma TimeoutsPiece10()
    ensures Silent("    }\n")
  {
  }

  lemma TimeoutsPiece11()
    ensures Silent("}")
  {
  }

  lemma TimeoutsSilent()
    ensures Silent(Timeouts())
  {
    TimeoutsPiece0();
    var t := "            ";
    TimeoutsPiece1();
    SilentJoin(t, "proxy_connect_timeou");
    t := t + "proxy_connect_timeou";
    TimeoutsPiece2();
    SilentJoin(t, "t 10s;\n");
    t := t + "t 10s;\n";
    TimeoutsPiece3();
    SilentJoin(t, "            ");
    t := t + "            ";
    TimeoutsPiece4();
    SilentJoin(t, "proxy_send_timeout ");
    t := t + "proxy_send_timeout ";
    TimeoutsPiece5();
    SilentJoin(t, "60s;\n");
    t := t + "60s;\n";
    TimeoutsPiece6();
    SilentJoin(t, "            ");
    t := t + "            ";
    TimeoutsPiece7();
    SilentJoin(t, "proxy_read_timeout ");
    t := t + "proxy_read_timeout ";
    TimeoutsPiece8();
    SilentJoin(t, "60s;\n");
    t := t + "60s;\n";
    TimeoutsPiece9();
    SilentJoin(t, "        }\n");
    t := t + "        }\n";
    TimeoutsPiece10();
    SilentJoin(t, "    }\n");
    t := t + "    }\n";
    TimeoutsPiece11();
    SilentJoin(t, "}");
    t := t + "}";
  }

  lemma LogFormatsSilent()
    ensures Silent(LogFormats())
  {
    MainLogFormatSilent();
    var t := MainLogFormat();
    DeniedLogFormatSilent();
    SilentJoin(t, DeniedLogFormat());
    t := t + DeniedLogFormat();
  }

  lemma PrefixSilent()
    ensures Silent(Prefix())
  {
    PreambleSilent();
    var t := Preamble();
    LogFormatsSilent();
    SilentJoin(t, LogFormats());
    t := t + LogFormats();
    LogFilesSilent();
    SilentJoin(t, LogFiles());
    t := t + LogFiles();
    AclHeaderSilent();
    SilentJoin(t, AclHeader());
    t := t + AclHeader();
  }

  lemma FallbackSilent()
    ensures Silent(Fallback())
  {
    IpAclFallbackSilent();
    var t := IpAclFallback();
    UrlAclFallbackSilent();
    SilentJoin(t, UrlAclFallback());
    t := t + UrlAclFallback();
    AccessFallbackSilent();
    SilentJoin(t, AccessFallback());
    t := t + AccessFallback();
  }

  lemma ServerHeadSilent()
    ensures Silent(ServerHead())
  {
    EditMarkerSilent();
    var t := EditMarker();
    ServerStartSilent();
    SilentJoin(t, ServerStart());
    t := t + ServerStart();
  }

  lemma ResponseHeadersSilent()
    ensures Silent(ResponseHeaders())
  {
    HiddenHeadersSilent();
    var t := HiddenHeaders();
    SecurityHeadersSilent();
    SilentJoin(t, SecurityHeaders());
    t := t + SecurityHeaders();
    CacheHeadersSilent();
    SilentJoin(t, CacheHeaders());
    t := t + CacheHeaders();
  }

  lemma ServerRulesSilent()
    ensures Silent(ServerRules())
  {
    ServerDenySilent();
    var t := ServerDeny();
    ProxyConnectSilent();
    SilentJoin(t, ProxyConnect());
    t := t + ProxyConnect();
    ResponseHeadersSilent();
    SilentJoin(t, ResponseHeaders());
    t := t + ResponseHeaders();
  }

  lemma LocationBodySilent()
    ensures Silent(LocationBody())
  {
    LocationDenySilent();
    var t := LocationDeny();
    ProxyingSilent();
    SilentJoin(t, Proxying());
    t := t + Proxying();
    ForwardedHeadersSilent();
    SilentJoin(t, ForwardedHeaders());
    t := t + ForwardedHeaders();
    TimeoutsSilent();
    SilentJoin(t, Timeouts());
    t := t + Timeouts();
  }

  lemma LocationBlockSilent()
    ensures Silent(LocationBlock())
  {
    LocationStartSilent();
    var t := LocationStart();
    LocationCheckSilent();
    SilentJoin(t, LocationCheck());
    t := t + LocationCheck();
    LocationBodySilent();
    SilentJoin(t, LocationBody());
    t := t + LocationBody();
  }

  lemma ServerBodySilent()
    ensures Silent(ServerBody())
  {
    ServerRulesSilent();
    var t := ServerRules();
    LocationBlockSilent();
    SilentJoin(t, LocationBlock());
    t := t + LocationBlock();
  }

  lemma SuffixSilent()
    ensures Silent(Suffix())
  {
    ServerHeadSilent();
    var t := ServerHead();
    ServerCheckSilent();
    SilentJoin(t, ServerCheck());
    t := t + ServerCheck();
    ServerBodySilent();
    SilentJoin(t, ServerBody());
    t := t + ServerBody();
  }

  lemma UrlHeaderSilent()
    ensures Silent("    # URL-based ACL Groups\n")
  {
  }

  lemma CombinedHeaderSilent()
    ensures Silent("    # Combined ACL Logic\n")
  {
  }
}
