# pgfga, verified

pgfga brings a PostgreSQL cluster to a desired state. It folds a configuration and the member graph of LDAP groups into
tables of roles, grants and databases, and then drives the cluster towards those tables with statements that are each
preceded by a check. This project models three connected parts and a smaller fourth:

* the **reconcile engine** of `pkg/pg`: `Handler.Reconcile` and `Handler.Finalize` down to the single statement;
* the **planner** of `internal/handler`, which fills the tables the engine works from;
* the **LDAP member graph** of `pkg/ldap`: linked objects, their index, the loop that builds it and the recursion that walks it;
* **text**: SQL quoting and printing, connection strings, the recognisers of distinguished names.

## How the engine is modelled

PostgreSQL is a value, `Catalog.Catalog`: roles with attributes, password and expiry; the membership relation; databases
with owner, schemas, extensions and owned objects; slots. `Catalog.Step` says what each statement does and when the
server refuses it (CREATE of something that exists, GRANT that would close a cycle, DROP SCHEMA of a schema in use, DROP
ROLE of an owner, an empty identifier, and so on). `Servers.Server` holds the current catalog and the trace of statements
sent. Unless the server is `reliable`, every check and every statement may also fail for no reason the model knows. The
order in which a map is iterated is arbitrary (`Servers.InSomeOrder`). A loop over the rows of a single-row query
receives some non-empty prefix of them (`Servers.Server.Cursor`).

A catalog is determined by its observables: `Desired.Get(c, k)` for a key `k` ("is this role there", "this column of this
role", "the owner of this database", ...). `Desired.Want(d, c, k)` is where specification `d` wants observable `k`, given
catalog `c`. It is the identity wherever the specification says nothing. Every engine method is proved to

* leave each observable where it was or put it where it is wanted (`Progress.Between`), however far it got;
* take only steps the server accepts, and keep every catalog in between on the same path (`Progress.Advance`, `Legal`);
* when it succeeds, leave everything it is responsible for where it is wanted (`Progress.Held`).

What is wanted does not move while such steps are taken (`Progress.WantStable`), so runs compose, also runs that fail
half-way, and the theorems about whole runs follow for every iteration order, every refusal and every number of attempts.

A failure needs a reason as well. On a `reliable` server nothing fails by chance, and every engine method names what made
it fail. `Obstacles.Obstacle` says, of the specification and the catalog a run starts from, what stops it: an option the
server does not understand, a grant of an Absent role that is not backed or would close a cycle, an extension or version
that is not available, a database without a template, a schema in use, an Allowed schema with an owner, and so on. Some of
these stop every run (`sure`), some only in some orders of the maps; `Obstacles.Decided` is the condition under which
there is no difference, and then a run succeeds exactly if there is no obstacle (`Obstacles.Explained`).
`Successes.Run` carries this to the configuration.

Four conditions appear in the theorems, and each one is explained by a lemma about what happens without it:

* `Coherent`: no role's option map demands both values of one column. `Orders.OptionOrderIff` shows that the order of
  options shows in the result exactly when this fails.
* `TemplateFixed`: if `template1` is managed, no managed database that is still missing would take over from it an
  observable that is still to change and that the database's own entry does not prescribe (`Desired.PrescribedIff`). The
  template's owner does not count, since a new database belongs to the connected role, and without a template no database
  is created (`Progress.NoneCreated`). For runs that may fail, an `Allowed` schema of the template counts as changing,
  because a failing run may leave it behind. This is close to exact: where it fails, creating the database before or after
  the change leaves that observable different, as in `Orders.TemplateOrderShows`; it says nothing of specifications that
  cannot be reconciled for another reason.
* `Quiet`: the map is coherent, no schema is `Allowed`, and every hash to be set has the form the server stores unchanged.
  `Theorems.PasswordSettlesIff` says exactly which configured passwords violate the last part.
* `Separated`: nothing that Finalize drops owns, or is a party to, something that is to stay.

## How the LDAP index is modelled

All searches of a run add to one index of linked objects. `Ldap.Index` is what the index says, by names: the DN and type
of every name, and the links. `Ldap.Searched` says what a search does to it; the objects are proved to follow it step by
step, whatever the ids, the empty one included. The recursion that lists a group is given room for a number of nested
calls; when they are used up the program ends. On inputs as directory servers give them (`cn=` DNs, plain uids):

* the links are a set that can be read off the input (`LdapSearches.SearchesLink`), so it is known exactly which users
  are dropped without an error (`LdapSearches.UidLinkedIff`). A listing never ends exactly if a cycle can be reached from
  its root (`LdapTree.EndlessIff`), and a whole run gets through, whatever its order, exactly if bases and groups form
  none (`EndToEnd.VisitsEndIff`);
* for searches none of which has one of its own groups for a uid, every order succeeds exactly if no uid names a group at
  all (`Tidy`, `LdapOrders.EveryOrderSucceedsIff`), and the order shows nowhere exactly if they are `SelfContained` as well
  (`LdapOrders.OrderFreeIff`).

## How unknown groups are modelled

An LDAP group is added to the table without being looked up. If its name is not there by then, it is stored under its key
but without a name. That harms nobody until it is looked up: a grant then carries the empty name, or the empty name gets
an entry of its own, and no run can succeed (`Planners.SpoiledFails`). `Plans.Extends` keeps account of this for every
step of the planner: what was stored without a name, what was looked up, and what was planned. So the plan of every run
that succeeds is the closed form (`Planners.Planner.Handle`), and it is known exactly when some order of the user entries
cannot get there (`Visits.LooksUpIff`, `Visits.EntryOrderShows`).

## Model

| member | source | states |
|---|---|---|
| Options.ValidOptions | pkg/pg/roleoption.go:74-119 | Every option that validation accepts is understood by the check query and by ALTER ROLE, both mean the same column and value, its polarity is its lack of a NO prefix, and stripping NO gives the same column turned on |
| Options.AlterSatisfiesCheck | pkg/pg/role.go:177-202 | For every option text, valid or not, that both sides understand, the ALTER sent makes true the condition the check asked for: a check never contradicts its own repair |
| Options.CheckedInverted | pkg/pg/roleoption.go:98-119 | The recursive condition of a NO option is the negated condition of the option without NO |
| Catalog.StepKeepsWf | pkg/pg/conn.go:129-136 | Every accepted statement keeps referential integrity: owners and members are existing roles, extensions and objects sit in existing schemas, names are not empty |
| Desired.CatalogsEqual | pkg/pg/handler.go:72-86 | The observables determine the catalog: catalogs that agree on every key, but for the contents of databases neither has, are equal |
| Desired.PrescribedIff | pkg/pg/database.go:165-183 | The observables that a database entry prescribes are exactly those whose wanted value does not depend on what the database held, so exactly the others can keep what was copied from the template |
| Desired.FormattedIsSecond | pkg/pg/role.go:270-275 | The expiry that is sent is the last whole second that is not after the configured moment, and no other |
| Progress.WantStable | pkg/pg/handler.go:72-86 | However far a run got, every observable that is neither contested nor to be taken over from a moving template is wanted in the same place as at its start |
| Progress.DoneStable | pkg/pg/handler.go:72-86 | No phase undoes another: such an observable, once where it is wanted, stays there |
| Progress.TemplateStays | pkg/pg/database.go:165-183 | An observable of a managed template that is where it is wanted does not change in any run; in a failing one, unless it is an `Allowed` schema |
| Progress.AdvanceTrans | pkg/pg/handler.go:72-86 | A step that succeeded followed by any other step is one longer step, for final and intermediate catalogs, legality and quietness |
| Progress.AttemptAdvances | pkg/pg/conn.go:129-136 | One check-then-alter whose statement is sound is such a step, whether the check fails, the statement is refused or it takes effect |
| Progress.NoneCreated | pkg/pg/database.go:165-183 | Without a template no run creates a database |
| Statements.CreateRoleSound | pkg/pg/role.go:159-175 | CREATE ROLE, sent only if the role is missing, changes nothing but what is wanted, provided the specification names the role |
| Statements.SetOptionSound | pkg/pg/role.go:177-202 | An option ALTER sent after its check failed changes one column to its wanted value, and is not sent to a settled role |
| Statements.SetValidUntilSound | pkg/pg/role.go:270-290 | Setting an expiry moves only the expiry, to the formatted value, and only if it differs |
| Statements.ResetValidUntilSound | pkg/pg/role.go:293-314 | Resetting an expiry moves only the expiry, and only away from a finite one |
| Statements.SetPasswordSound | pkg/pg/role.go:209-242 | Setting a password moves only the password, to the stored form of the hash; a settled catalog gets no such statement |
| Statements.ResetPasswordSound | pkg/pg/role.go:245-263 | Removing a password is right only once the login column is where it is wanted, which is why options come first |
| Statements.GrantSound | pkg/pg/grants.go:54-81 | GRANT adds exactly the wanted membership |
| Statements.CreateSlotSound | pkg/pg/replicationslot.go:55-71 | Creating a slot changes nothing else |
| Statements.CreateDatabaseSound | pkg/pg/database.go:165-183 | Creating a database from the template puts every observable of it where it was (the template's) or where it is wanted |
| Statements.AlterOwnerSound | pkg/pg/database.go:126-157 | Changing a database owner changes only the owner, and only if it differs |
| Statements.CreateSchemaSound | pkg/pg/schema.go:71-90 | Creating a schema that an extension or a schema entry demands is right; the rest of the database is untouched |
| Statements.DropSchemaSound | pkg/pg/schema.go:46-64 | Dropping an unwanted schema is right, unless a Present extension demands it and it is empty |
| Statements.AlterSchemaOwnerSound | pkg/pg/schema.go:100-125 | Changing a schema owner moves only that owner |
| Statements.CreateExtensionSound | pkg/pg/extension.go:87-133 | Creating an extension gives it the wanted schema and version where the entry says one |
| Statements.DropExtensionSound | pkg/pg/extension.go:48-66 | The unconditional DROP EXTENSION IF EXISTS removes only that extension and may be repeated |
| Statements.AlterExtensionSchemaSound | pkg/pg/extension.go:170-193 | Moving an extension changes only its schema |
| Statements.AlterExtensionVersionSound | pkg/pg/extension.go:141-160 | Updating an extension changes only its version |
| Statements.GrantTablesSound | pkg/pg/database.go:224-232 | Table grants do not touch the catalog |
| Servers.Server.Exec | pkg/pg/conn.go:129-136 | A statement takes effect exactly as the server defines it, or fails and changes nothing; either way it is on the trace; on a reliable server it takes effect whenever the server accepts it |
| Servers.Server.Cursor | pkg/pg/role.go:135-149 | Reading rows one by one gives some prefix, non-empty when there are rows |
| Servers.InSomeOrder | pkg/pg/role.go:35-44 | Iterating a map visits every key once, in an order nothing is known about |
| Roles.Create | pkg/pg/role.go:159-175 | One check, at most one CREATE ROLE, only for a missing role that is not Absent; on a reliable server it fails only for the empty name |
| Roles.ReconcileOption | pkg/pg/role.go:184-202 | A success leaves the role satisfying the option's check, and the role's row is exactly that option applied to the old row; on a reliable server a failure means that the check is not understood, or ALTER is not and the column was not as demanded |
| Roles.ReconcileOptions | pkg/pg/role.go:183-202 | A success applied every key of the map once, in some order; every key is one the check understands, and every uncontested column is where it is wanted; on a reliable server a failure shows such an option |
| Roles.ReconcileSetExpiry | pkg/pg/role.go:270-290 | A success with an expiry leaves the last whole second that is not after it, in microseconds; nothing on a reliable server makes it fail |
| Roles.ReconcileResetExpiry | pkg/pg/role.go:293-314 | A success without an expiry leaves none that ends; nothing on a reliable server makes it fail |
| Roles.ReconcileSetPassword | pkg/pg/role.go:209-242 | A success for a login role with a password leaves that password as the server stores it if it is 35 characters starting with md5, and otherwise md5 followed by the digest of password and role name; nothing on a reliable server makes it fail |
| Roles.ReconcileResetPassword | pkg/pg/role.go:245-263 | A success for any other role leaves no password on a login role, except the connected one; nothing on a reliable server makes it fail |
| Roles.Reconcile | pkg/pg/role.go:101-119 | A success leaves existence, every column, expiry and password of the role where they are wanted, at the same time; on a reliable server a failure shows a role without a name or an option that is not understood, both in terms of the catalog before |
| Roles.ReconcileAll | pkg/pg/role.go:35-44 | The same for every listed role at once, in any map order; on a reliable server a failure shows such a role, in terms of the catalog the phase started from |
| Grants.GrantMembership | pkg/pg/grants.go:54-81 | A success leaves the membership and both roles in place; the only membership that can be new is the grant's own, between roles that are not Absent. A success shows that the grant was not blocked, and on a reliable server a failure that it was: not there, and of a role that is Absent or has no name, or closing a cycle |
| Grants.ReconcileAll | pkg/pg/grants.go:11-19 | The same for every grant of the list at once; every grant was of a membership that was there, or that some grant up to it makes between roles that are not Absent. The memberships afterwards are exactly the old ones and the wanted ones; a success shows that no grant was blocked at its turn, and on a reliable server a failure that one was |
| Grants.CreateSlotIfMissing | pkg/pg/replicationslot.go:55-71 | A success leaves a slot that is not Absent in place; on a reliable server it fails only for a slot without a name |
| Grants.ReconcileSlots | pkg/pg/replicationslot.go:6-15 | The same for every slot at once, in any map order |
| Databases.CreateSchemaIfMissing | pkg/pg/schema.go:71-90 | One check, at most one CREATE SCHEMA, only if it is missing and not Absent; on a reliable server it fails only for the empty name |
| Databases.DropSchemaIfThere | pkg/pg/schema.go:46-64 | One check, at most one DROP SCHEMA, only if it is there and not Present; on a reliable server it fails only if something lives in the schema |
| Databases.SchemaAdvances | pkg/pg/schema.go:32-44 | Create followed by drop, for each of the three states: afterwards the schema is there exactly if it is Present |
| Databases.AllowedIdleAdvances | pkg/pg/schema.go:46-90 | An Allowed schema nobody demands is created and dropped again within one run, which moves no observable in the end |
| Databases.ReconcileSchemaOwner | pkg/pg/schema.go:100-125 | A success leaves the wanted owner, creates that role if need be, and adds or removes no schema; on a reliable server it fails only if the schema is gone although it has an owner to get |
| Databases.ReconcileSchema | pkg/pg/schema.go:32-44 | A success settles existence and owner of the schema without disturbing the extensions settled before; a success shows that nothing was in its way, and on a reliable server a failure that something was: an empty name, a schema in use that is to go, an Allowed one with an owner |
| Databases.ReconcileSchemas | pkg/pg/schema.go:12-21 | The same for every schema at once, in any map order; and so is what stops it, in terms of the database before |
| Databases.CreateExtensionIfMissing | pkg/pg/extension.go:87-133 | A success leaves a Present extension in place, with its schema created on the way. It fails on a reliable server only for an extension or version that is not available, or without a schema to live in |
| Databases.DropExtensionAlways | pkg/pg/extension.go:48-66 | A success leaves no Absent extension; any other state changes nothing |
| Databases.ReconcileExtensionSchema | pkg/pg/extension.go:170-193 | A success leaves the extension in its wanted schema, created if missing, with no extension gained or lost |
| Databases.ReconcileExtensionVersion | pkg/pg/extension.go:141-160 | A success leaves the wanted version and every extension in its schema |
| Databases.ReconcileExtension | pkg/pg/extension.go:33-46 | A success settles existence, schema and version of the extension; on a reliable server a failure shows one of these, or an Absent extension without a name |
| Databases.ReconcileExtensions | pkg/pg/extension.go:12-21 | The same for every extension at once, in any map order, although two of them may create one schema. What stops every order and what may stop some is known from the database before |
| Tables.ReadOnlyExactIff | pkg/pg/database.go:208-213 | The read-only query returns exactly the schemas with a table the role cannot read, whatever privileges are held, if and only if no two tables have the same `schema.table` text |
| Tables.ReadWriteExactIff | pkg/pg/database.go:243-253 | The same for the read-write query that counts five privileges, in both directions |
| Tables.GrantAllCovers | pkg/pg/database.go:224-232 | One grant on all tables of a schema removes exactly that schema from the uncovered ones and takes nothing away |
| Tables.RunsCover | pkg/pg/database.go:201-234 | As many successful runs as there are uncovered schemas leave none, whatever prefixes the cursor gave |
| TableGrants.GrantSchemas | pkg/pg/database.go:224-232 | A success covers exactly the schemas listed; a failure has only added privileges, for one role in one database; on a reliable server it fails only if the role does not exist |
| TableGrants.ReconcileReadOnlyGrants | pkg/pg/database.go:201-234 | A success finds nothing that `<db>_readonly` cannot SELECT from or covers at least one more schema; that role gains SELECT alone. On a reliable server it fails only if there is such a table and the role does not exist |
| TableGrants.ReconcileReadWriteGrants | pkg/pg/database.go:236-280 | The same for `<db>_readwrite` and all five privileges |
| TableGrants.BothLoops | pkg/pg/database.go:88-103 | The two loops do not disturb each other: after both, both table roles are one run closer; the read-only role gains SELECT and nothing else |
| TableGrants.RunsCoverDatabase | pkg/pg/database.go:201-280 | As many successful runs of the whole reconciler as schemas lack something leave, on every table of a managed database, SELECT to `<db>_readonly` and all five privileges to `<db>_readwrite` |
| Handlers.CreateDatabaseIfMissing | pkg/pg/database.go:165-183 | A success leaves the database in place, as it was or as a copy of the template; on a reliable server it fails only without a template or without a name |
| Handlers.ReconcileOwner | pkg/pg/database.go:126-157 | A success leaves the wanted owner, and nothing but the owner changes; on a reliable server it fails only if the wanted owner does not exist |
| Handlers.ReconcileDbCon | pkg/pg/database.go:88-103 | A success settles all extensions and all schemas together and brings both table roles one run closer to full coverage; no other database's tables are touched; a success shows that nothing stopped every order, and on a reliable server a failure that something may: a table role that does not exist, an extension, a schema |
| Handlers.ReconcileDatabase | pkg/pg/database.go:67-85 | A success settles everything about a Present database; any other one is left alone; its failures are explained by the database before, or by the template it is copied from |
| Handlers.ReconcileDatabases | pkg/pg/database.go:15-24 | The same for every database at once, in any map order, although they may share owners; a failure on a reliable server shows a database with an obstacle in the catalog the phase started from |
| Handlers.PhasesCoverAll | pkg/pg/handler.go:72-86 | What the four phases settle is everything the specification wants, and a success shows that no schema entry conflicts with an extension |
| Handlers.Handler.constructor | pkg/pg/handler.go:15-34 | A new handler knows the role opex, no grants, the given databases, and every listed slot as Present |
| Handlers.Handler.GetRole | pkg/pg/handler.go:55-62 | The role is returned as stored; a missing one is added under its own name |
| Handlers.Handler.Grant | pkg/pg/handler.go:65-69 | Both roles are known afterwards, none is changed, and one Present grant is appended in the right direction |
| Handlers.Handler.AddRole | pkg/pg/role.go:25-32 | The role is merged into its entry, or into the role without a name if it has none; every other entry is untouched |
| Handlers.Handler.Reconcile | pkg/pg/handler.go:72-86 | Any call, however far it gets, only moves observables to where they are wanted; a success leaves all of them there, and table grants one run closer. A success shows that there was no sure obstacle at its start; on a reliable server a failure shows an obstacle, and where the order of maps decides nothing a call succeeds exactly if there is none |
| Handlers.Handler.Finalize | pkg/pg/handler.go:89-103 | Any call removes only what may go and a success removes all of it: databases, memberships, roles and slots. On a reliable server it fails only if the template is to go, or a role to be dropped owned something in a database that stays |
| Finalizing.DropRoleIfThere | pkg/pg/role.go:121-157 | For every prefix of rows: no object disappears, a success removes that role and its memberships and nothing else, and everything it owned was inherited. After it the catalog is exactly what was handed over, without the role; on a reliable server it fails only if the role still owns something after that |
| Finalizing.ReassignAll | pkg/pg/role.go:131-149 | Reassigning in the databases of the rows, one by one: what the dropped role owned in a database goes to the owner that database had at the start, the databases it owned to one of those owners, and nothing else changes; the catalog afterwards is exactly that, and nothing on a reliable server makes it fail |
| Finalizing.InheritorOwnsDatabase | pkg/pg/role.go:121-157 | After the drop each object and schema it owned in a database belongs to the owner that database had before, who is another role; the databases it owned belong to an owner of some database |
| Finalizing.HandedIs | pkg/pg/role.go:131-149 | What each database is after its rows: inside it the role's things are its owner's if it was read, and the database itself, if it was the role's, belongs to the first owner read that is another |
| Finalizing.StillOwnsIff | pkg/pg/role.go:131-157 | Exactly when the drop is refused: the role owns a database and no other owner was read, or owns something inside a database that was not read or is its own |
| Finalizing.OwnedBefore | pkg/pg/role.go:47-56 | Roles to be dropped inherit only from each other: one that owns something during Finalize goes back to one that did before |
| Finalizing.DropDatabaseIfThere | pkg/pg/database.go:106-123 | A success leaves no database that is not Present; nothing else is lost; on a reliable server it fails only for the template |
| Finalizing.Revoke | pkg/pg/grants.go:84-105 | A success leaves no membership that is not Present; nothing else is lost |
| Finalizing.DropSlotIfThere | pkg/pg/replicationslot.go:37-53 | A success leaves no slot that is not Present; nothing else is lost |
| Finalizing.FinalizeDatabases | pkg/pg/database.go:27-36 | The same for every database, in any map order; on a reliable server it succeeds exactly if the template is not to go |
| Finalizing.FinalizeGrants | pkg/pg/grants.go:22-30 | The same for every grant |
| Finalizing.FinalizeRoles | pkg/pg/role.go:47-56 | The same for every role, in any map order, although one drop may hand objects to a role that is dropped next; on a reliable server it fails only with a role to be dropped that owns something |
| Finalizing.FinalizeSlots | pkg/pg/replicationslot.go:18-27 | The same for every slot, in any map order |
| Finalizing.TrimmedTrans | pkg/pg/handler.go:89-103 | Removals compose: what a later phase may take is counted against the catalog Finalize started from |
| Finalizing.GoneStable | pkg/pg/handler.go:89-103 | What one phase of Finalize removed no later phase brings back |
| Theorems.WantSurvives | pkg/pg/handler.go:72-86 | Any run, successful or not, wants each such observable in the end where it was wanted before; if nothing passing can be taken over, so does every catalog in its trace |
| Theorems.WantSurvivesAttempts | pkg/pg/handler.go:72-86 | The same across any number of failed runs |
| Theorems.SuccessDetermines | pkg/pg/handler.go:72-86 | After any number of failed runs, a successful one leaves each uncontested observable that is not taken over from a moving template where the first catalog wanted it |
| Theorems.Restartability | pkg/pg/handler.go:72-86 | Failing any number of times at any statement and then succeeding reaches exactly the catalog an undisturbed successful run reaches, unless a managed database that is still missing would take over from a managed template something that is still to change |
| Theorems.OrderIndependence | pkg/pg/handler.go:72-86 | Two successful runs from one catalog end in equal catalogs, whatever orders roles, options, databases, extensions, schemas and slots were visited in, under the same condition without regard to `Allowed` schemas of the template |
| Theorems.Idempotence | pkg/pg/handler.go:72-86 | A successful run after a successful run changes nothing |
| Theorems.SecondRunIsQuiet | pkg/pg/handler.go:72-86 | A run after a successful run, even one that fails, sends nothing but DROP EXTENSION IF EXISTS and table grants, and leaves the catalog as it is |
| Theorems.PasswordSettlesIff | pkg/pg/role.go:209-242 | A password that was just set looks unset to the next run if and only if it is 35 characters that start with md5 and do not go on in hexadecimal |
| Theorems.Convergence | pkg/pg/handler.go:72-86 | After a success all at once: every role with each option key's polarity, expiry and password; every membership, database, owner, extension schema and version, schema and slot; no Absent extension or schema |
| Theorems.RoleConverges | pkg/pg/role.go:101-119 | What convergence means for one role, in terms of its row: every option key, an expiry to the second, and a password kept if it is 35 characters starting with md5 and otherwise hashed with the role name |
| Theorems.DatabaseConverges | pkg/pg/database.go:67-103 | What convergence means for one database, in terms of its owner (its own name if the entry gives none), extensions and schemas |
| Theorems.EveryStepIsAdditive | pkg/pg/handler.go:72-86 | After every statement of every run nothing has been removed, unlisted roles, options, databases, schemas and extensions and all objects are as they were, and every new role is named by the tables, a grant or an owner entry |
| Theorems.TrimmingKeepsPresent | pkg/pg/handler.go:89-103 | Finalize, however far it gets, leaves what was converged and Present so |
| Theorems.DesiredStateMet | pkg/pg/handler.go:72-103 | Reconcile and then Finalize, both successful: everything Present still holds although everything else was removed |
| Theorems.GrantedRolesAreNamed | pkg/pg/grants.go:54-81 | A success shows that no grant had an empty role name |
| Theorems.AbsentGrantsAreBacked | pkg/pg/grants.go:54-81 | A success shows of every grant with an Absent role that its membership was there before the run or is made by an earlier grant between roles that are not Absent |
| Orders.OptionOrderIff | pkg/pg/role.go:183-202 | Every order of the option map gives the same row, whatever the row was, if and only if no column is demanded both on and off |
| Orders.LastWins | pkg/pg/role.go:183-202 | The option applied last holds afterwards |
| Orders.OrderResult | pkg/pg/role.go:183-202 | A column that is not demanded both ways ends as demanded, or as it was |
| Orders.TemplateOrderShows | pkg/pg/database.go:15-24 | A specification as a handler builds it, which manages the template, and two traces from one catalog that both satisfy everything a successful call of Reconcile is proved to establish, and end differently: whether the new database has the template's new schema depends on which one is visited first |
| Memberships.ChainIsReach | pkg/pg/grants.go:54-81 | The server's reachability test finds every chain of memberships, also one that repeats names |
| Memberships.GrantKeepsAcyclic | pkg/pg/grants.go:54-81 | A membership the reachability test lets through closes no cycle |
| Memberships.StepKeepsAcyclic | pkg/pg/conn.go:129-136 | No accepted statement of any kind closes a cycle |
| Memberships.RunsStayAcyclic | pkg/pg/grants.go:11-19 | Memberships are acyclic after every statement of every run |
| Memberships.GrantsNeverCycle | pkg/pg/grants.go:11-19 | If existing memberships and wanted grants together have no cycle, no grant can be refused for one at any point of a run in any order, and a success ends with exactly their union |
| Memberships.CyclicGrantsNeverSucceed | pkg/pg/grants.go:11-19 | The converse: a run from memberships without a cycle that succeeds shows that they and the wanted grants together have none, and ends with their union |
| Memberships.GrantsBlockedIff | pkg/pg/grants.go:11-19 | From memberships without a cycle, grants stop a run exactly if the wanted ones would close one, or one that is not there by its turn has a role that is Absent or has no name |
| OptionMaps.Clone | pkg/pg/roleoption_map.go:16-22 | A clone has the same keys and forgets the values |
| OptionMaps.Merge | pkg/pg/roleoption_map.go:36-42 | The keys of the one and the absolute keys of the other; with both spellings of a key the value depends on map order |
| OptionMaps.MergeRole | pkg/pg/role.go:68-84 | Options merged, state raised to Present or kept, password and expiry dropped |
| OptionMaps.MergeIsNormal | pkg/pg/role.go:77-84 | Merging keeps an option map free of NO keys, whatever valid options are merged in |
| OptionMaps.NormalDemands | pkg/pg/role.go:183-202 | Such a map demands no column off and contests none |
| OptionMaps.InvertedBecomesDemand | pkg/pg/roleoption_map.go:36-42 | Every valid option that is merged in, with NO or without, ends up demanding its column on |
| Planners.Planner.GrantAll | internal/handler/pgfga_handler.go:202-206 | One Present grant is appended for each listed membership, in order, to the role as stored; missing roles are added and no known role changes; the names involved are what is looked up; all of them Present, between Present roles |
| Planners.Planner.MergeOptions | internal/handler/pgfga_handler.go:197-200 | The role is looked up and planned with exactly the absolute keys added, unless it is stored without a name |
| Planners.Planner.ParseRoleOptions | internal/handler/pgfga_handler.go:188-195 | Succeeds exactly on valid option names and keeps their spelling |
| Planners.Planner.ParseUserOptions | internal/handler/pgfga_handler.go:158-165 | Succeeds exactly on valid option names and strips NO |
| Planners.Planner.HandleRole | internal/handler/pgfga_handler.go:187-207 | Succeeds exactly on valid options and adds exactly what the role entry contributes |
| Planners.Planner.HandleRoles | internal/handler/pgfga_handler.go:186-209 | Succeeds exactly if every role entry is valid, and adds exactly their union, whatever the map order |
| Planners.Planner.HandlePlainUser | internal/handler/pgfga_handler.go:117-154 | Adds the user's options, LOGIN and memberships; password and expiry do not reach the table |
| Planners.Planner.HandleMember | internal/handler/pgfga_handler.go:105-113 | The member gets the options and LOGIN, and one Present grant of the group with the entry's state in both roles |
| Planners.Planner.HandleLdapGroup | internal/handler/pgfga_handler.go:80-115 | Succeeds exactly if the search and the listing do. Adds exactly the group's options, the entry's memberships and every listed member with its grant; the group is stored without a name exactly if it was not known, and the tables are spoiled exactly if the entry or a member looks up a role without a name. Every grant to a member carries the state of the entry in both roles |
| Planners.Planner.HandleTree | internal/handler/pgfga_handler.go:104-113 | The members listed are exactly the descendants of the base in the index as it is, and the plan adds exactly them, with the group's options and LOGIN |
| Planners.Planner.HandleMembers | internal/handler/pgfga_handler.go:105-113 | The same for the members alone, one by one |
| Planners.Planner.HandleUser | internal/handler/pgfga_handler.go:156-184 | Succeeds exactly on valid options, a known kind and, for an LDAP group, a search and listing that succeed on the index as it is; adds exactly what the entry contributes, its group known or not |
| Planners.Planner.HandleUsers | internal/handler/pgfga_handler.go:156-184 | All entries share one index: success, the index and what each group lists are those of the order in which the map was visited. The groups stored without a name are exactly those that were no name when their entry came; unless one of them is looked up, the plan is exactly the union of the entries |
| Planners.Planner.HandleDbRole | internal/handler/pgfga_handler.go:212-239 | The owner with CREATEDB, both table roles, and opex in the read-write one, unless the database is Absent |
| Planners.Planner.HandleDbRoles | internal/handler/pgfga_handler.go:211-241 | The union of these, whatever the map order |
| Planners.Planner.PlanAll | internal/handler/pgfga_handler.go:62-78 | Succeeds exactly if every option and kind is valid and every search and listing succeeds in the order visited. Then all roles are stored under their own names exactly if no group was unknown when its entry came; the plan is the closed form of the configuration and of what the groups listed unless such a group is looked up later, and exactly then, or with an empty name, the tables are spoiled |
| Planners.Planner.Handle | internal/handler/pgfga_handler.go:62-78 | The whole program: a plan that fails sends nothing and changes nothing; otherwise one reconcile run, never a Finalize. Whenever it succeeds, for known and unknown groups alike, the plan was the closed form and no group stored without a name had been looked up. A failure of a plan that came about is explained by an obstacle; every grant that was added is Present, and between Present roles if every LDAP group is |
| Planners.SpoiledFails | pkg/pg/grants.go:54-81 | Spoiled tables never reconcile: neither with a role under the empty name nor with a grant of or to a role without a name |
| Plans.MergeExtends | pkg/pg/role.go:25-32 | Looking up a role, changing it and adding it again plans the new options under its name; if it was stored without a name, it spoils the tables and names nothing |
| Plans.GrantExtends | pkg/pg/handler.go:65-69 | A grant plans its membership, and spoils the tables exactly if one of its two roles has no name |
| Plans.GroupExtends | internal/handler/pgfga_handler.go:93-98 | Adding a group without looking it up plans its options; it is stored without a name exactly if it was not there |
| Plans.ExtendsTrans | internal/handler/pgfga_handler.go:62-78 | Steps on the tables compose: what was stored without a name, looked up and planned adds up |
| Plans.ClosedFormKeys | internal/handler/pgfga_handler.go:117-241 | An option key is planned for a role exactly if its role entry, a user entry or an LDAP group gives it, or it is CREATEDB and the role owns a database that is not Absent |
| Plans.ClosedFormEdges | internal/handler/pgfga_handler.go:93-239 | A membership is planned exactly if a Present role entry or a Present user entry of any kind lists it, or it is of a listed member in its LDAP group, or of opex in `<db>_readwrite` of a database that is not Absent |
| Plans.ClosedFormNames | internal/handler/pgfga_handler.go:93-239 | A role is planned exactly if it is a role entry, a plain user, an LDAP group under its LDAP name or a member of one, what a Present entry is a member of, such an entry that has memberships, or the owner, a table role or opex of a database that is not Absent |
| Plans.CleanPlansAreCoherent | internal/handler/pgfga_handler.go:62-78 | Planned tables contradict themselves nowhere, whatever the configuration |
| Visits.VisitNext | internal/handler/pgfga_handler.go:156-184 | Each entry's search and listing happen on the index the entries before it left |
| Visits.UsersPlannedNext | internal/handler/pgfga_handler.go:156-184 | One more entry: the groups without a name, the names, the plan and whether the tables are spoiled are those of the longer order |
| Visits.AllPlanned | internal/handler/pgfga_handler.go:62-78 | Roles, users and databases together: the closed form unless a nameless group is looked up |
| Visits.NamedInEveryOrderIff | internal/handler/pgfga_handler.go:93-98 | With given listings, every order of the entries leaves all roles named if and only if every LDAP group is a name before users are handled |
| Visits.LooksUpIff | internal/handler/pgfga_handler.go:62-78 | With given listings, some order looks up a nameless group if and only if some LDAP group that is not known beforehand is among the names that a user entry, its own included, or a database looks up |
| Visits.EntryOrderShows | internal/handler/pgfga_handler.go:80-134 | Two entries whose order decides: a group that is not known, and a user who is to be its member. If the group comes first, a nameless role is looked up; if the user does, everything is named |
| Visits.OwnGroupIsStranger | internal/handler/pgfga_handler.go:93-103 | A Present group entry with memberships that is called like its own group, which nothing else names, looks up a nameless role in every order |
| LdapText.ValidPairIff | pkg/ldap/utils.go:10-13 | Accepted pairs are exactly letters, one equals sign, letters or digits |
| LdapText.ValidDNIff | pkg/ldap/utils.go:5-8 | Accepted distinguished names are exactly the comma-joined non-empty lists of accepted pairs |
| LdapText.LeafNameIsPlain | pkg/ldap/member.go:27-66 | The leaf name of any id is neither empty nor a pair nor a distinguished name, so index keys of the three kinds never collide |
| Ldap.Member.SetFromId | pkg/ldap/member.go:27-66 | Identity only grows: a known DN fixes everything, a name or pair once set stays, and a fresh member takes all it can from the id |
| Ldap.Member.SetType | pkg/ldap/member.go:68-77 | A type is set once; only a contradicting one is an error |
| Ldap.Member.AddParent | pkg/ldap/member.go:98-109 | Both directions of the link are added, or neither if the DNs agree or a parent of that name is there |
| Ldap.NewMember | pkg/ldap/member.go:18-24 | A member with everything its id says and no links, for any id |
| Ldap.NodeFiled | pkg/ldap/member.go:144-146 | The keys of a new member, name, pair and DN or the empty text, overwrite no name: every plain key still leads to the one object of that name |
| Ldap.NodeAdded | pkg/ldap/member.go:130-148 | A new member has no links and changes nobody else's |
| Ldap.LinkAdded | pkg/ldap/member.go:98-109 | A link shows at exactly its two ends, mirrored |
| Ldap.Directory.GetByID | pkg/ldap/member.go:130-148 | For any id, the empty one included: the object of the id's name, always the same, and a missing one is added without links; the index is that of the specification |
| Ldap.Directory.Insert | pkg/ldap/member.go:144-146 | The three keys are added; index and objects agree |
| Ldap.Directory.LinkBelow | pkg/ldap/member.go:98-109 | addParent between indexed members: exactly this link is added, in both directions, unless the DNs are equal |
| Ldap.Directory.GiveType | pkg/ldap/member.go:68-77 | A type is given once, and objects and index agree |
| Ldap.Directory.AddUser | pkg/ldap/handler.go:77-87 | One memberUid, exactly as specified; every object stays the one its name leads to |
| Ldap.Directory.AddEntry | pkg/ldap/handler.go:68-88 | One entry, exactly as specified, succeeding exactly when specified |
| Ldap.Directory.AddEntries | pkg/ldap/handler.go:71-88 | All entries of a search result, in order |
| Ldap.Directory.GetMembers | pkg/ldap/handler.go:55-91 | On any index, for any base and entries: succeeds exactly when the specification does, and leaves exactly its index |
| LdapTree.MembershipTree | pkg/ldap/member.go:112-123 | Ends well if and only if no walk from the root needs more nested calls than there is room for; then it lists only real links, one entry per non-empty path from the root, each path once |
| LdapTree.ListedAreDescendants | pkg/ldap/member.go:112-123 | The members listed are exactly the descendants of the root |
| LdapTree.ThroughChild | pkg/ldap/member.go:112-123 | The list of a child, behind the link to it, is exact for the paths that start with that link |
| LdapTree.JoinExact | pkg/ldap/member.go:112-123 | Exact lists for disjoint sets of first steps append to an exact list |
| LdapTree.CycleIsDeep | pkg/ldap/member.go:112-123 | A cycle that can be reached uses up any room |
| LdapTree.AcyclicIsShallow | pkg/ldap/member.go:112-123 | Where no cycle can be reached, room for as many calls as there are linked names is enough |
| LdapTree.EndlessIff | pkg/ldap/member.go:112-123 | A listing never ends, whatever the room, if and only if a cycle can be reached from its root |
| LdapSearches.UserAdded | pkg/ldap/handler.go:77-87 | A memberUid is refused exactly if it names a group with a DN; otherwise it becomes a user, below its group exactly if that has a DN |
| LdapSearches.SearchesHold | pkg/ldap/handler.go:55-91 | After any number of successful searches the index holds exactly what they gave, in whatever order; if no uid names a group, every order succeeds |
| LdapSearches.SearchesLink | pkg/ldap/handler.go:55-91 | The links are exactly those that can be read off the input, and exactly the memberUids have no DN |
| LdapSearches.UidLinkedIff | pkg/ldap/handler.go:77-87 | A memberUid is below its group if and only if the group's name is nobody's memberUid |
| LdapSearches.GroupLinkedIff | pkg/ldap/handler.go:71-76 | If no uid names a group, a base and a group found under it are linked if and only if their leaf names differ |
| LdapSearches.AcyclicIff | pkg/ldap/handler.go:55-91 | If no uid names a group, the graph of any number of searches has a cycle if and only if the pairs of a base and a group found under it have one |
| LdapSearches.OneSearchTwoLayers | pkg/ldap/handler.go:55-91 | One search on an index of its own: members without DN have no children, no walk takes more than two links, and there is no cycle |
| LdapOrders.ListsOwn | pkg/ldap/handler.go:55-91 | A search among self-contained ones succeeds and lists what it lists alone, whatever came before it |
| LdapOrders.OrderFreeIff | pkg/ldap/handler.go:55-91 | For searches none of which has one of its own groups for a uid: every order succeeds and lists the same if and only if no uid names a group and each search knows everything below its base that any of them knows |
| LdapOrders.ApartIsSelfContained | pkg/ldap/handler.go:55-91 | Searches that mention different groups are self-contained |
| LdapOrders.ClashFails | pkg/ldap/handler.go:82-85 | A search fails after one that found, as a group, what is a uid of its own |
| LdapOrders.EveryOrderSucceedsIff | pkg/ldap/handler.go:55-91 | For any number of searches none of which has one of its own groups for a uid: every order succeeds if and only if no uid of any of them names a group of any of them |
| LdapOrders.ClashingOrder | pkg/ldap/handler.go:82-85 | Otherwise there is an order of all of them whose second search fails |
| LdapOrders.SharedGroup | pkg/ldap/handler.go:55-91 | A base that another search finds as a group: both orders succeed, and a user of the lower search is listed for the upper base exactly if the lower one came first |
| LdapOrders.SharedGroupInput | pkg/ldap/handler.go:55-91 | Such searches, for any names |
| LdapOrders.UidIsOthersGroup | pkg/ldap/handler.go:77-87 | A uid that is another search's group: one order fails, the other drops that group's users without an error |
| LdapOrders.UidIsOthersGroupInput | pkg/ldap/handler.go:77-87 | Such searches, for any names, with a user that ends up below nothing |
| LdapOrders.UidIsOwnGroup | pkg/ldap/handler.go:77-87 | One search whose first group has the second as a user: it succeeds, and the second group's user ends up below nothing |
| LdapOrders.MemberDNAdded | pkg/ldap/member_type.go:11-20 | A memberUid that is a DN and names nobody yet: `uid=...` becomes a user with that DN below its group, `cn=...` is refused |
| LdapOrders.MutualGroupsNeverEnd | pkg/ldap/member.go:112-123 | Two searches that each find the other's base both succeed, and then the listing never ends, however much room there is |
| EndToEnd.SyncGroup | internal/handler/pgfga_handler.go:80-115 | Search, plan and reconcile for one group entry on any index and any tables the planner can have left, its role known or not: a success leaves everything below the base group able to log in and a direct member of the group's role |
| EndToEnd.UidIsBelow | pkg/ldap/handler.go:55-91 | On an index of its own, a uid the search gave is linked below its group if and only if that group's name is nobody's memberUid, and then it is below the base |
| EndToEnd.GroupUidsSynced | internal/handler/pgfga_handler.go:80-115 | So such uids can log in and are direct members of the base group's role |
| EndToEnd.VisitsSearch | internal/handler/pgfga_handler.go:156-184 | Handling user entries one after the other makes their searches on one index |
| EndToEnd.VisitsEnd | internal/handler/pgfga_handler.go:156-184 | If no uid names a group and bases and groups form no cycle, then room for as many calls as there are linked names is enough for every order of the entries |
| EndToEnd.VisitsAreAcyclic | internal/handler/pgfga_handler.go:156-184 | The converse: one order that gets through, with whatever room, shows that bases and groups form no cycle |
| EndToEnd.VisitsEndIff | internal/handler/pgfga_handler.go:156-184 | If no uid names a group: an order gets through with some room if and only if every search can be made and bases and groups form no cycle, so all orders do or none does |
| EndToEnd.EveryOrderEndsIff | internal/handler/pgfga_handler.go:156-184 | For searches none of which has one of its own groups for a uid: every order gets through with some room if and only if every search can be made, no uid names a group, and there is no cycle |
| EndToEnd.ListingsAreOwn | internal/handler/pgfga_handler.go:156-184 | If the searches are self-contained, each group lists what it lists alone, whatever the order of the map |
| EndToEnd.ListingsAreBetween | internal/handler/pgfga_handler.go:156-184 | In every order each group lists at least what its own search gives, and at most what all searches together give |
| EndToEnd.PlanIsOrderFree | internal/handler/pgfga_handler.go:156-184 | For self-contained searches the plans of any two orders are the same if neither looks up a nameless group; if no group could be looked up so, no order does, and the plans are always the same |
| EndToEnd.SyncAll | internal/handler/pgfga_handler.go:62-78 | The whole program on any number of LDAP groups that share an index, known as roles or not, whatever else the searches have in common: a success leaves every descendant of every base in its own search, and every uid every search gave, able to log in and a direct member of the group's role |
| EndToEnd.PlannedMemberSynced | pkg/pg/handler.go:72-86 | A member whose LOGIN and membership are planned ends with both |
| EndToEnd.ConfigurationIsMet | internal/handler/pgfga_handler.go:62-78 | A successful run carries the whole closed form into the catalog: every named role, every option turned on, every membership |
| EndToEnd.LdapGroupsSynced | internal/handler/pgfga_handler.go:80-115 | In a successful run every member that any LDAP group listed can log in and is its direct member |
| EndToEnd.PlansConverge | internal/handler/pgfga_handler.go:62-78 | A reconciled plan is converged, whatever the configuration |
| EndToEnd.PlannedPasswordsAreReset | internal/handler/pgfga_handler.go:136-154 | Every planned login role other than the connected one ends without password and without an expiry, whatever the configuration says |
| Obstacles.DatabaseBlockedIff | pkg/pg/database.go:67-103 | If nothing about a database depends on what was visited before, what stops its visit is: no owner name, nothing to copy, a missing table role, or what it holds |
| Obstacles.ObstacleDecided | pkg/pg/handler.go:72-86 | If the server understands every option on both sides, table roles are there or hold nothing, no extension comes without a schema into one that is created for another, and no database is copied from a managed template, then what may stop a run stops every run |
| Successes.PlanObstacles | internal/handler/pgfga_handler.go:62-78 | What can stop a plan: memberships that close a cycle, a database, a slot without a name; options, roles and table grants never do |
| Successes.Run | internal/handler/pgfga_handler.go:62-78 | On a reliable server the program succeeds exactly if options and kinds are valid, every search and listing succeeds, no group stored without a name is looked up, no name is empty, the memberships of the configuration close no cycle with those that are there, and no database is in its own way |
| Successes.MembershipsAreMet | internal/handler/pgfga_handler.go:62-78 | A success leaves exactly the memberships that were there and those the configuration says, entry by entry |
| SqlText.QuotedReadsBack | pkg/pg/utils.go:9-16 | Text quoted by doubling reads back as exactly that text, and reading stops at the closing quote |
| SqlText.LexText | pkg/pg/utils.go:9-16 | A list of words of letters, digits and underscores, delimited identifiers, string constants and commas lexes back from its text to exactly that list, for all names and values |
| SqlText.ReadTokens | pkg/pg/role.go:159-202 | The tokens of every issued statement are read back as that statement with its names in their places, by a reader for which every keyword and the number of tokens count |
| SqlText.PrintReadsBack | pkg/pg/role.go:234-235 | Printing any issued CREATE, ALTER, GRANT, REVOKE, REASSIGN or DROP and reading the text gives the same statement, for all names and values; option texts must be single words |
| SqlText.OptionReadsBackIff | pkg/pg/role.go:195-199 | The one text that goes in unquoted: an option is read back if and only if it is a single word |
| Dsn.ValueReadsBackIff | pkg/pg/conn_param.go:11-13 | A printed value reads back as itself if and only if it holds no backslash |
| Dsn.PrintedParses | pkg/pg/conn_param.go:27-40 | A list of printed parameters parses to the map it was printed from |
| Dsn.ConnectionString | pkg/pg/conn_param.go:27-40 | The printed text lists every key once in byte order, and parses back to the map it came from when keys are bare words and values hold no backslash |
| Dsn.LessIff | pkg/pg/conn_param.go:27-40 | The order of the keys: at the first index where two of them differ the smaller one ends or has the smaller character |
| Dsn.SortedListingIsUnique | pkg/pg/conn_param.go:27-40 | A set of keys has only one sorted listing |
| Dsn.TextIsDetermined | pkg/pg/conn_param.go:27-40 | The text depends on the map alone |

## Where the code and its documentation differ

The model follows the code. In each case a lemma or contract says what the code does.

* `CONFIG.md:142-144` promises `state: Absent`. Merging a role only ever raises its state to Present
  (pkg/pg/role.go:77-84), a role starts out Present, and the program never calls Finalize, so a configured Absent role
  is created like any other (`OptionMaps.MergeRole`, `Planners.Planner.PlanAll`).
* `CONFIG.md:149-175` says a NO option turns its option off. Merging strips NO from the key and the engine looks at keys
  only, so NOLOGIN is enforced as LOGIN (`OptionMaps.InvertedBecomesDemand`). A NO key put on a role directly is enforced
  as written.
* `CONFIG.md:76-83` promises passwords and expiry dates. They are set on a copy that is not stored, and merging drops
  them anyway (`EndToEnd.PlannedPasswordsAreReset`). The engine itself does what is promised (`Roles.Reconcile`).
* `CONFIG.md:99-105` says that the members found for the entry `dbateam` with base `cn=dba,...` are granted `dbateam`, and
  that options are set on `dbateam`. The code does both with the base's leaf name `dba`
  (internal/handler/pgfga_handler.go:93-113); `dbateam` is only granted what the entry is a member of
  (`Plans.GroupPlan`, `Planners.Planner.HandleLdapGroup`).
* An LDAP group that is no name when its entry is visited is stored with an empty name
  (internal/handler/pgfga_handler.go:93-98 with pkg/pg/role.go:27-31). Its members are still granted the right role, but
  whatever looks the group up later makes the run fail, and whether anything does can depend on the order of a map
  (`Planners.Planner.Handle`, `Visits.EntryOrderShows`).
* An Absent LDAP group gives grants whose roles are Absent, which the engine refuses unless the membership exists or an
  earlier grant makes it (`Theorems.AbsentGrantsAreBacked`).
* What an LDAP group lists can depend on the order of a map, users can be dropped without an error, and a listing can
  fail to end (`LdapOrders.SharedGroup`, `LdapOrders.UidIsOwnGroup`, `LdapOrders.MutualGroupsNeverEnd`).
* Setting a state to Absent after a drop (pkg/pg/role.go:154, pkg/pg/database.go:121) writes to a copy made by the loop
  and is lost.

## Left out

- PostgreSQL connections, contexts, environment variables and the switching of connections: I/O. A statement carries the database it is sent to.
- LDAP dialing, binding, retries and the search itself: network. For every user entry the entries the server finds are an input, the same whenever they are asked for in a run.
- Credentials, YAML decoding, flags, logging, run delay, version and the program's entry point: plumbing. The configuration is a value.
- MD5 is a parameter (`World.md5`), and so is the RFC 3339 text of an expiry; the printing theorem asks that the latter can be read back.
- Names over 63 bytes, which the server truncates, and names the server reserves.
- A salted verifier is a function of the password text; the server's check of unknown or ill-formed option texts is a refusal.
- CREATE EXTENSION without a schema picks the world's default schema and is refused if that is missing; tables and owners of extension members, and refusals for dependencies, appear only as failures without a reason, of which a reliable server has none.
- Table privileges are kept beside the catalog, with one grantor and a fixed set of tables.
- Other clients changing the cluster during a run.
- Handlers.Handler.Reconcile: the reason of a failure assumes that a table of a user schema is an object of its database (`Obstacles.Fits`), because the catalog and the table privileges are kept apart.
- Handlers.Handler.Finalize: whether a role to be dropped still owns something depends on how many rows the cursor yields, so the reason of a failure is necessary; Finalizing.StillOwnsIff says exactly when one drop is refused.
- Successes.Run: is for a start without cycles, tables that hold no grants yet, LDAP groups that are Present and databases whose visits do not depend on each other (`DatabasesDecided`); Obstacles.Explained, in the contract of Planners.Planner.Handle, covers the rest.
- Theorems.DesiredStateMet: speaks of Present objects and of those to be removed; an Allowed role, grant or slot is created by Reconcile and removed by Finalize.
- Tables.RunsCover: needs distinct `schema.table` texts, because the queries are not exact without them (see Tables.ReadOnlyExactIff).
- LdapSearches.SearchesLink: the closed form of the links is for `cn=` DNs and plain uids; for other ids Ldap.Directory.GetMembers gives the index as the specification computes it.
- LdapOrders.OrderFreeIff: is for searches none of which has one of its own groups for a uid; whether such a search succeeds depends on the order of its own entries, and LdapSearches.UserAdded says how.
- Orders.TemplateOrderShows: shows one kind of specification for which the order matters; that it matters for every specification without a fixed template is not claimed. Its two traces satisfy the relation Reconciled, which bounds what a call does; that the method produces each of them is not shown.
- SqlText.PrintReadsBack: leaves out the two function calls for replication slots; the lexer reads no operators, comments or numbers, because no statement prints any.
- Dsn.PrintedParses: reads the text by the grammar of libpq (section 34.1.1.1 of the PostgreSQL 16 manual); the reader of the pgx library, which the program hands the text to, is not part of this model and may treat a backslash differently.
- Lookup without adding a missing member, and the branch for a bare pair as id, which no id reaches because a pair is also a distinguished name.
- Option maps are values here, so the aliasing of the map that AddAbsolute writes into is not modelled.
- AbsoluteMerge (the body of Merge once more), StrictOptions, conversion of options to lists, and the text of states.
