/** The configuration data model of the editor: the access-control groups it
    reads out of, and writes back into, the nginx configuration file. */
module Types {

  datatype Option<T> = None | Some(value: T)

  /** One `cidr value;` line of a `geo` block. */
  datatype IpAclEntry = IpAclEntry(cidr: string, value: string, description: string)

  /** A `geo $name { ... }` block. */
  datatype IpAclGroup = IpAclGroup(name: string, description: string, entries: seq<IpAclEntry>)

  /** One host pattern line of a `map $host $name` block; `pattern` is stored
      without the `~` regex marker, which `isRegex` carries instead. */
  datatype UrlAclEntry = UrlAclEntry(pattern: string, value: string, description: string, isRegex: bool)

  /** A `map $host $name { ... }` block. */
  datatype UrlAclGroup = UrlAclGroup(name: string, description: string, entries: seq<UrlAclEntry>)

  /** One rule line of a combined map. */
  datatype CombinedAclRule = CombinedAclRule(pattern: string, value: string, description: string)

  /** A `map "$g1$g2..." $name { ... }` block over the concatenated values of
      its source groups, in `sourceGroups` order. */
  datatype CombinedAcl = CombinedAcl(name: string, description: string, sourceGroups: seq<string>, rules: seq<CombinedAclRule>)

  /** The whole editable configuration: three ordered sequences. */
  datatype NginxConfig = NginxConfig(ipAclGroups: seq<IpAclGroup>, urlAclGroups: seq<UrlAclGroup>, combinedAcls: seq<CombinedAcl>)
}
