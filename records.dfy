/** The `(count, name, rdid)` tuples that both parsers of app.py produce. */
module Records {

  /** One parsed report line: `count` cases handled by employee `name` for damage
      type `rdid` (the report column is called "RD_ID"). */
  datatype Record = Record(count: nat, name: string, rdid: string)
}
