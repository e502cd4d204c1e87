/** `generateNginxConfig`: writes a model back out as an nginx configuration.

    The text is a fixed header, one `geo` block per IP group, one `map $host`
    block per URL group, the combined maps (or, when there are none, three
    fixed maps kept for backward compatibility), a fixed map of denial
    reasons, and a fixed server section. */
module Generator {
  import opened Text
  import opened Types

  // ---------------------------------------------------------------------
  // Lines and blocks
  // ---------------------------------------------------------------------

  /** The trailing comment of an entry line: nothing for an empty description. */
  function Comment(description: string): string {
    if description == "" then "" else "  # " + description
  }

  /** The line that opens every block's body. */
  function DefaultLine(): string {
    "        default 0;\n"
  }

  /** The line that closes a block, and the blank line after it. */
  function BlockEnd(): string {
    "    }\n\n"
  }

  function IpEntryLine(e: IpAclEntry): string {
    "        " + e.cidr + " " + e.value + ";" + Comment(e.description) + "\n"
  }

  function IpEntryLines(entries: seq<IpAclEntry>): string {
    if |entries| == 0 then "" else IpEntryLine(entries[0]) + IpEntryLines(entries[1..])
  }

  /** The `geo` block of an IP group. */
  function GeoText(g: IpAclGroup): string {
    "    geo $" + g.name + " {\n" + DefaultLine() + IpEntryLines(g.entries) + BlockEnd()
  }

  function IpSection(groups: seq<IpAclGroup>): string {
    if |groups| == 0 then "" else GeoText(groups[0]) + IpSection(groups[1..])
  }

  /** The key a URL entry is written under: a regular expression is anchored
      at both ends and marked with `~`. */
  function UrlKey(e: UrlAclEntry): string {
    if e.isRegex then "~^" + e.pattern + "$" else e.pattern
  }

  /** A URL entry line: the quoted key padded to 30 columns, then the value. */
  function UrlEntryLine(e: UrlAclEntry): string {
    "        " + PadEnd("\"" + UrlKey(e) + "\"", 30) + " " + e.value + ";" + Comment(e.description) + "\n"
  }

  function UrlEntryLines(entries: seq<UrlAclEntry>): string {
    if |entries| == 0 then "" else UrlEntryLine(entries[0]) + UrlEntryLines(entries[1..])
  }

  /** The `map $host` block of a URL group. */
  function MapText(g: UrlAclGroup): string {
    "    map $host $" + g.name + " {\n" + DefaultLine() + UrlEntryLines(g.entries) + BlockEnd()
  }

  function UrlBlocks(groups: seq<UrlAclGroup>): string {
    if |groups| == 0 then "" else MapText(groups[0]) + UrlBlocks(groups[1..])
  }

  function UrlSection(groups: seq<UrlAclGroup>): string {
    "    # URL-based ACL Groups\n" + UrlBlocks(groups)
  }

  /** The source groups, each written as a variable, with nothing between them. */
  function SourceExpression(groups: seq<string>): string {
    if |groups| == 0 then "" else "$" + groups[0] + SourceExpression(groups[1..])
  }

  function RuleLine(r: CombinedAclRule): string {
    "        \"" + r.pattern + "\" " + r.value + ";" + Comment(r.description) + "\n"
  }

  function RuleLines(rules: seq<CombinedAclRule>): string {
    if |rules| == 0 then "" else RuleLine(rules[0]) + RuleLines(rules[1..])
  }

  /** The `map` block of a combined ACL, keyed by the quoted source expression. */
  function CombinedText(a: CombinedAcl): string {
    "    map \"" + SourceExpression(a.sourceGroups) + "\" $" + a.name + " {\n" + DefaultLine() + RuleLines(a.rules) + BlockEnd()
  }

  function CombinedBlocks(acls: seq<CombinedAcl>): string {
    if |acls| == 0 then "" else CombinedText(acls[0]) + CombinedBlocks(acls[1..])
  }

  /** The combined section: the combined ACLs, or the three fixed maps when
      there are none. */
  function CombinedSection(acls: seq<CombinedAcl>): string {
    "    # Combined ACL Logic\n" + (if |acls| > 0 then CombinedBlocks(acls) else Fallback())
  }

  // ---------------------------------------------------------------------
  // Fixed text
  // ---------------------------------------------------------------------
  //
  // Each line of the fixed text is written as a sum of literals of at most
  // twenty characters, cut at arbitrary places; what matters is the text
  // they spell out. Short literals keep the facts proved about them cheap.

  /** The process settings and the opening of `http`. */
  function Preamble(): string {
    "worker_processes " + "auto;\n"
    + "daemon off;\n"
    + "events {\n"
    + "    worker_connectio" + "ns 1024;\n"
    + "}\n"
    + "\n"
    + "http {\n"
    + "    # Log formats " + "remain unchanged\n"
  }

  /** The `main` log format. */
  function MainLogFormat(): string {
    "    log_format main " + "\'$remote_addr - " + "$remote_user " + "[$time_local] " + "\"$request\" \'\n"
    + "                    " + "\'$status " + "$body_bytes_sent " + "\"$http_referer\" \'\n"
    + "                    " + "\'\"$http_user_agent\" " + "\"$http_x_forwarded_f" + "or\"\';\n"
  }

  /** The `denied` log format, which records the denial reason. */
  function DeniedLogFormat(): string {
    "    log_format " + "denied \'$remote_addr" + " - [$time_local] " + "\"$request\" \'\n"
    + "                    " + "  \'$status " + "\"$http_user_agent\" " + "\"$http_referer\" \'\n"
    + "                    " + "  \'Host: \"$host\" " + "URI: \"$request_uri\" " + "\'\n"
    + "                    " + "  \'Client: " + "\"$remote_addr\" \'\n"
    + "                    " + "  \'Reason: " + "\"$deny_reason\"\';\n"
  }

  /** The access, error and denial logs. */
  function LogFiles(): string {
    "    access_log " + "/var/log/nginx/acces" + "s.log main;\n"
    + "    error_log " + "/var/log/nginx/error" + ".log info;\n"
    + "    access_log " + "/var/log/nginx/denie" + "d.log denied " + "if=$deny_log;\n"
  }

  /** The banner before the access-control definitions. */
  function AclHeader(): string {
    "\n"
    + "#===================" + "====================" + "====================" + "===================\n"
    + "    # Structured " + "ACL Definitions\n"
    + "    # IP-based ACL " + "Groups\n"
  }

  /** The fixed combination of the two default IP groups. */
  function IpAclFallback(): string {
    "    map \"$acl_intern" + "al_ips$acl_test_ips\"" + " $ip_acl {\n"
    + DefaultLine()
    + "        \"~*1\" 1;  # " + "Allow if either " + "internal or test " + "IPs match\n"
    + BlockEnd()
  }

  /** The fixed combination of the three default URL groups. */
  function UrlAclFallback(): string {
    "    map \"$acl_micros" + "oft_urls$acl_redhat_" + "urls$acl_cdn_urls\" " + "$url_acl {\n"
    + DefaultLine()
    + "        \"~*1\" 1;  # " + "Allow if any URL " + "group matches\n"
    + BlockEnd()
  }

  /** The fixed final decision: both the IP and the URL check must allow. */
  function AccessFallback(): string {
    "    # Final Access " + "Decision\n"
    + "    map \"$ip_acl$url" + "_acl\" $access_grante" + "d {\n"
    + DefaultLine()
    + "        \"11\" 1;  # " + "Both IP and URL " + "must be allowed\n"
    + BlockEnd()
  }

  /** The map from the two access variables to a denial reason. */
  function DenyMap(): string {
    "    # Denial " + "Reasons Mapping\n"
    + "    map \"$ip_acl$url" + "_acl\" $deny_reason " + "{\n"
    + "        \"00\" \"Both " + "IP and URL not " + "allowed\";\n"
    + "        \"01\" \"IP " + "not whitelisted\";\n"
    + "        \"10\" \"URL " + "not allowed\";\n"
    + "        default \"\";\n"
    + BlockEnd()
  }

  /** The marker after which the configuration is not meant to be edited. */
  function EditMarker(): string {
    "# END OF CODE TO " + "EDIT, DO NOT EDIT " + "BELOW.\n"
    + "# ==================" + "====================" + "====================" + "====================" + "\n"
  }

  /** The opening of the `server` block. */
  function ServerStart(): string {
    "    server {\n"
    + "        listen " + "8080;\n"
    + "        resolver " + "8.8.8.8 1.1.1.1 " + "ipv6=off;\n"
    + "\n"
    + "        # " + "Centralized ACL " + "Check\n"
  }

  /** The server-level test of `$access_granted`. */
  function ServerCheck(): string {
    "        " + "if ($" + "access_granted" + " = 0)" + " {\n"
  }

  /** The server-level refusal. */
  function ServerDeny(): string {
    "            return " + "403 \"Access Denied: " + "$deny_reason\";\n"
    + "        }\n"
    + "\n"
  }

  /** The CONNECT proxy settings. */
  function ProxyConnect(): string {
    "        # Security " + "headers and proxy " + "settings remain " + "unchanged\n"
    + "        " + "proxy_connect;\n"
    + "        " + "proxy_connect_allow " + "all;\n"
    + "        " + "proxy_connect_connec" + "t_timeout 10s;\n"
    + "        " + "proxy_connect_read_t" + "imeout 60s;\n"
    + "        " + "proxy_connect_send_t" + "imeout 60s;\n"
    + "\n"
  }

  /** The upstream headers that are hidden. */
  function HiddenHeaders(): string {
    "        " + "proxy_hide_header " + "Upgrade;\n"
    + "        " + "proxy_hide_header " + "X-Powered-By;\n"
  }

  /** The security headers that are added. */
  function SecurityHeaders(): string {
    "        add_header " + "Content-Security-Pol" + "icy \"upgrade-insecur" + "e-requests\";\n"
    + "        add_header " + "X-Frame-Options " + "\"SAMEORIGIN\";\n"
    + "        add_header " + "X-XSS-Protection " + "\"1; mode=block\" " + "always;\n"
    + "        add_header " + "X-Content-Type-Optio" + "ns \"nosniff\" " + "always;\n"
  }

  /** The remaining added headers. */
  function CacheHeaders(): string {
    "        add_header " + "Cache-Control " + "\"no-transform\" " + "always;\n"
    + "        add_header " + "Referrer-Policy " + "no-referrer always;\n"
    + "        add_header " + "X-Robots-Tag none;\n"
    + "\n"
  }

  /** The opening of the `location /` block. */
  function LocationStart(): string {
    "        location / " + "{\n"
    + "            # " + "Single ACL check " + "instead of " + "duplicate " + "validations\n"
  }

  /** The location-level test of `$access_granted`. */
  function LocationCheck(): string {
    "            " + "if ($" + "access_granted" + " = 0)" + " {\n"
  }

  /** The location-level refusal. */
  function LocationDeny(): string {
    "                set " + "$deny_reason " + "\"$deny_reason " + "(" + "location level)\";\n"
    + "                " + "return 403 \"Access " + "Denied: " + "$deny_reason\";\n"
    + "            }\n"
    + "\n"
  }

  /** The proxied request. */
  function Proxying(): string {
    "            " + "proxy_http_version " + "1.1;\n"
    + "            " + "proxy_set_header " + "Host $host;\n"
    + "            " + "proxy_set_header " + "Connection \"\";\n"
    + "            " + "proxy_pass " + "$scheme://$host$requ" + "est_uri;\n"
    + "\n"
  }

  /** The forwarded client headers. */
  function ForwardedHeaders(): string {
    "            " + "proxy_set_header " + "X-Real-IP " + "$remote_addr;\n"
    + "            " + "proxy_set_header " + "X-Forwarded-For " + "$proxy_add_x_forward" + "ed_for;\n"
    + "            " + "proxy_set_header " + "X-Forwarded-Proto " + "$scheme;\n"
    + "\n"
  }

  /** The proxy time-outs and the closing braces. */
  function Timeouts(): string {
    "            " + "proxy_connect_timeou" + "t 10s;\n"
    + "            " + "proxy_send_timeout " + "60s;\n"
    + "            " + "proxy_read_timeout " + "60s;\n"
    + "        }\n"
    + "    }\n"
    + "}"
  }

  /** The two log formats. */
  function LogFormats(): string {
    MainLogFormat() + DeniedLogFormat()
  }

  /** The header: process settings, log formats and the start of `http`. */
  function Prefix(): string {
    Preamble() + LogFormats() + LogFiles() + AclHeader()
  }

  /** The maps written when there are no combined ACLs. */
  function Fallback(): string {
    IpAclFallback() + UrlAclFallback() + AccessFallback()
  }

  /** The end-of-definitions marker and the opening of `server`. */
  function ServerHead(): string {
    EditMarker() + ServerStart()
  }

  /** The response headers that are hidden or added. */
  function ResponseHeaders(): string {
    HiddenHeaders() + SecurityHeaders() + CacheHeaders()
  }

  /** The server-level refusal, proxy settings and headers. */
  function ServerRules(): string {
    ServerDeny() + ProxyConnect() + ResponseHeaders()
  }

  /** The location-level refusal and the proxying. */
  function LocationBody(): string {
    LocationDeny() + Proxying() + ForwardedHeaders() + Timeouts()
  }

  /** The `location /` block, which tests `$access_granted` again. */
  function LocationBlock(): string {
    LocationStart() + LocationCheck() + LocationBody()
  }

  /** The rest of the server section. */
  function ServerBody(): string {
    ServerRules() + LocationBlock()
  }

  /** The server section, which tests `$access_granted` twice. */
  function Suffix(): string {
    ServerHead() + ServerCheck() + ServerBody()
  }

  // ---------------------------------------------------------------------
  // The whole text
  // ---------------------------------------------------------------------

  /** The part of the text that depends on the model: the `geo` blocks, the
      URL maps, the combined maps and the map of denial reasons. */
  function Sections(c: NginxConfig): string {
    IpSection(c.ipAclGroups) + UrlSection(c.urlAclGroups) + CombinedSection(c.combinedAcls) + DenyMap()
  }

  /** `generateNginxConfig`. The header and the server section do not depend
      on the model. */
  function Generate(c: NginxConfig): (r: string)
    ensures StartsWith(r, Prefix()) && EndsWith(r, Suffix())
  {
    Framed(Prefix(), Sections(c), Suffix());
    Prefix() + Sections(c) + Suffix()
  }

  lemma Framed(head: string, middle: string, tail: string)
    ensures StartsWith(head + middle + tail, head) && EndsWith(head + middle + tail, tail)
  {
    assert (head + middle + tail)[..|head|] == head;
  }
}
