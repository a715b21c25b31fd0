/** The database engines. */
module Engines {
  datatype Engine = Postgres | Mysql | Mariadb | Sqlite | Mssql | Redis {
    predicate IsMysqlFamily() {
      Mysql? || Mariadb?
    }
  }
}
