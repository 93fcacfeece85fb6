# Kubespray, verified

A Dafny model of four programs of the Kubespray repository, and proofs of what they do over
all inputs and all histories:

* the **inventory builder** (`contrib/inventory_builder/inventory.py`), a state machine whose
  every command-line run rewrites the saved inventory: it folds add and delete tokens over the
  hosts, purges departed hosts from every section and assigns the roles again from positions
  and two size thresholds;
* the **Terraform inventory** (`contrib/terraform/terraform.py`): dotted keys read back into
  nested attributes, the inverted group index, and the overlay of floating addresses;
* the **etcd role** (`roles/etcd`): certificates generated on the first etcd host and copied to
  the others, and members joined one at a time;
* the **indentation parser** `parse_yaml` of `customized/nvidia/kube-job.sh`.

`dafny verify dfyconfig.toml` checks everything.

## How it is organised

Programs that change things step by step are classes and methods with loops, in the order of
the source. Each is proved to compute a specification function, and what the system promises is
proved about those functions.

| file | contents |
|---|---|
| `Text.dfy`, `Dicts.dfy` | decimal numerals, `split` and `join`; insertion-ordered dictionaries |
| `InventorySpec.dfy`, `Inventory.dfy` | one run of the inventory builder, as functions and as the class |
| `HostNames.dfy`, `Addresses.dfy`, `HostTokens.dfy` | name allocation; option strings and the host list as a set of addresses; what single tokens do and which are refused |
| `LoadedSections.dfy`, `LoadedOptions.dfy` | what loading files leaves in the sections |
| `RoleHistory.dfy`, `UpdateSections.dfy` | the exact effect of a run on every section, and what every history keeps |
| `RoleLayout.dfy`, `RoleSeparation.dfy`, `RoleRepeat.dfy` | fresh builds, route reflectors, repeated runs |
| `TerraformAttrs.dfy`, `TerraformTree.dfy`, `TerraformIndex.dfy` | attribute lists, the interface tree, the index |
| `EtcdCerts.dfy`, `EtcdRole.dfy`, `EtcdConvergence.dfy`, `EtcdContents.dfy` | certificates: one run, its tasks, histories of runs, and who holds which file |
| `EtcdJoin.dfy`, `EtcdConfig.dfy`, `EtcdAddresses.dfy` | the join protocol, the configurations it writes, and exactly when its membership check is wrong |
| `Deployment.dfy` | from histories of the inventory builder to converged hosts |
| `ParseYaml.dfy`, `YamlNames.dfy` | the indentation parser, the tree printer it inverts, and what it prints for any lines |

Reading of Ansible: tasks run in order over all hosts of the play; a looped `include_tasks` runs
item by item; registered facts belong to a host; a `run_once` task is decided and, unless
delegated, executed on the first host of the play, and a `run_once` `set_fact` reaches all its
hosts. Delegation does not change `inventory_hostname`. A group lists
each of its hosts once. A certificate is its subject, its key
and its signer; the next key that `openssl` draws is a counter in the state, and the contents of
a file stand for its checksum.

## What was found

Where the code does less than its surroundings say, the exact condition is proved, both ways.

* **Route reflectors.** The guards of `set_calico_rr` compare a name with (name, value) pairs and
  never fire (`Inventory.KubesprayInventory.Conflicts`). `docs/calico.md` asks for hosts not to be
  in both `calico-rr` and `kube-node`; in an inventory that only grows this holds exactly when the
  first build was already at scale or scale has not been reached
  (`RoleSeparation.SeparationOfGrowth`, with a run that breaks it in
  `RoleSeparation.CrossingTheThreshold`).
* **Thresholds.** The help text lists `MASSIVE_SCALE_THRESHOLD`, but both thresholds are read from
  `SCALE_THRESHOLD`. The model does the same, so setting it makes them equal.
* **Host names.** With a dotted `HOST_PREFIX` whose first part ends in digits, all names read
  back one id (`HostNames.FreshNames`) and a new host can replace another
  (`Addresses.NewHostOverwrites`); with any other dotted prefix the names given out have no id, so
  the next run fails (`RoleRepeat.RepeatedExactly`).
* **Loading.** A group called `all` blanks the options it has just written, and `print_ips` then
  fails (`Addresses.LoadThenPrint`).
* **Scaling.** The script task runs only when the play starts with the first etcd host. The
  scaling playbook runs the role over `kube-node`, so in an inventory built at scale it leaves
  workers added since without certificates (`Deployment.ScalingPlay`,
  `Deployment.NewWorkerUnserved`).
* **Uncovered etcd hosts.** An etcd host that is neither in the cluster nor a route reflector never
  gets a node key (`EtcdConvergence.ConvergesIfCovered`). The inventory builder never produces one
  (`RoleHistory.EveryHistory`).
* **Joining.** The membership check searches the whole member list for an address, with its dots
  as wildcards. A host whose address lies inside a member's address, or matches the end of one
  and the peer or client port (`10.10.5.237` against `10.10.10.5:2379`), is taken for a member and
  never joins (`EtcdAddresses.AddressesDecide`, `EtcdAddresses.ShadowedNeverJoins`).
* **Deep trees.** `awk` compares the index of a `for (i in a)` loop as a string, so
  `parse_yaml` drops ancestors from the tenth level on (`ParseYaml.TreeRoundTrip`).

## Model

| member | source | states |
|---|---|---|
| Text.DecimalInjective | contrib/inventory_builder/inventory.py:173 | two ids print alike only if they are equal |
| Text.ValueOfAppend | contrib/inventory_builder/inventory.py:135-136 | digits in front of a numeral never make it smaller, and keep its value exactly when they are zeros |
| Inventory.GetIpFromOpts | contrib/inventory_builder/inventory.py:114-122 | the first `ip=` option, an error for an option with two equals signs met before it, an error without one |
| Inventory.ExistsIp | contrib/inventory_builder/inventory.py:185-189 | whether some host carries the address; an unreadable option string met before it is an error |
| Inventory.DeleteHostByIp | contrib/inventory_builder/inventory.py:191-196 | exactly the first host with the address leaves the dictionary, or the address is reported unknown |
| InventorySpec.AddToMeans | contrib/inventory_builder/inventory.py:206-208 | setting one option: it reads back, a new one comes last, the other options and their order stay, and so do the other sections |
| Inventory.KubesprayInventory.EnsureRequiredGroups | contrib/inventory_builder/inventory.py:124-130 | missing sections are appended empty, existing ones are untouched |
| Inventory.KubesprayInventory.ReadExisting | contrib/inventory_builder/inventory.py:141-150 | the copy of `all` and the highest id, or the error of the first name without one |
| Inventory.KubesprayInventory.ApplyToken | contrib/inventory_builder/inventory.py:156-178 | the loop body is the token function: delete by name, else by address; add unknown addresses under the next id; refuse names; ignore the rest |
| Inventory.KubesprayInventory.BuildHostnames | contrib/inventory_builder/inventory.py:140-180 | the loop over the tokens is the fold of the token function, and stops at the first error |
| Inventory.KubesprayInventory.PurgeRole | contrib/inventory_builder/inventory.py:200-204 | option by option removal leaves exactly the live options of the section, in order |
| Inventory.KubesprayInventory.PurgeInvalidHosts | contrib/inventory_builder/inventory.py:198-204 | every section is restricted to the hosts and the protected names |
| Inventory.KubesprayInventory.SetAll | contrib/inventory_builder/inventory.py:214-216 | `all` is merged with the built hosts, old entries keeping their places |
| Inventory.KubesprayInventory.SetKubeMaster | contrib/inventory_builder/inventory.py:210-212 | the given hosts are added to `kube-master` |
| Inventory.KubesprayInventory.SetK8sCluster | contrib/inventory_builder/inventory.py:218-220 | `kube-node` and `kube-master` become children of the cluster |
| Inventory.KubesprayInventory.SetEtcd | contrib/inventory_builder/inventory.py:250-253 | the interleaved additions equal adding all hosts to `etcd` and then to `vault` |
| Inventory.KubesprayInventory.SetKubeNode | contrib/inventory_builder/inventory.py:234-248 | exactly the hosts that neither threshold rules out, as the sections were before the loop, are added |
| Inventory.KubesprayInventory.Conflicts | contrib/inventory_builder/inventory.py:224-231 | the two guards are always false |
| Inventory.KubesprayInventory.SetCalicoRr | contrib/inventory_builder/inventory.py:222-232 | all given hosts are added, whatever `kube-master` and `kube-node` hold |
| Inventory.KubesprayInventory.LoadedOptstring | contrib/inventory_builder/inventory.py:283-287 | address first, then the other variables in order; an error without an address |
| Inventory.KubesprayInventory.LoadFile | contrib/inventory_builder/inventory.py:255-291 | files are loaded and saved one after the other; a failure keeps the files before it |
| Inventory.KubesprayInventory.PrintIps | contrib/inventory_builder/inventory.py:331-335 | the addresses of `all` in order, or the first error |
| Inventory.KubesprayInventory.AssignRoles | contrib/inventory_builder/inventory.py:85-95 | purge and reassignment together are the role function of the spec |
| Inventory.KubesprayInventory.Start | contrib/inventory_builder/inventory.py:70-100 | the file after an invocation and the exception it ends with, for commands, updates and no arguments; a failed update writes nothing |
| HostNames.IdRoundTrip | contrib/inventory_builder/inventory.py:132-138 | all ids are read back from the names given out exactly when the prefix has no dot and ends in no digits but zeros |
| HostNames.FreshNames | contrib/inventory_builder/inventory.py:140-180 | for every inventory and token list the next name differs from every existing, deleted and earlier name, ids running on without a gap, exactly when the prefix is not a dotted one with an id |
| HostNames.HostNameInjective | contrib/inventory_builder/inventory.py:173 | two ids never give one name, even after a prefix that ends in a digit |
| HostNames.TokenEffect | contrib/inventory_builder/inventory.py:156-178 | a token removes one present host, adds one under the next id, or does nothing |
| HostNames.FindIpInKeys | contrib/inventory_builder/inventory.py:185-196 | the search by address finds a host that carries it, and none only if no host does |
| HostNames.SurvivorsLead | contrib/inventory_builder/inventory.py:140-180 | after any tokens the surviving hosts come first, in their old order, and only new names follow |
| HostNames.SurvivorsMoveForward | contrib/inventory_builder/inventory.py:155-180 | a host that survives a run is never further from the front |
| HostNames.RolesHaveNoId | contrib/inventory_builder/inventory.py:132-138 | no section name can be an existing host, so none lingers in `all` |
| HostTokens.DeleteByName | contrib/inventory_builder/inventory.py:157-161 | the token `-h` for a host h leaves exactly the other hosts, in order and with their options, and uses up no id |
| HostTokens.DeleteByAddress | contrib/inventory_builder/inventory.py:162-164 | the token `-x` for no host's name removes the first host with that address, or nothing |
| HostTokens.DeletedEverywhere | contrib/inventory_builder/inventory.py:83-98 | deleting a host by name succeeds exactly when all names have ids; then the host is in no section and `all` is the old list without it |
| HostTokens.SectionsLive | contrib/inventory_builder/inventory.py:198-204 | after a run every section holds listed hosts and names of sections only |
| HostTokens.IdsDecide | contrib/inventory_builder/inventory.py:141-150 | the highest id is that of a host, no host has a higher one, and it cannot be told exactly when some host has none |
| HostTokens.IdOfName | contrib/inventory_builder/inventory.py:132-138 | the id is the number that the part before the first dot ends in; without one there is an error |
| HostTokens.AddAddress | contrib/inventory_builder/inventory.py:173-176 | an unknown address adds one host at the end, under the prefix and the next id, with `ansible_host=` and `ip=` |
| HostTokens.AddKnown | contrib/inventory_builder/inventory.py:165-171 | a known name or address changes nothing |
| HostTokens.UnreadableRefused | contrib/inventory_builder/inventory.py:185-189 | an unreadable host met before the address makes adding and deleting fail with its error |
| HostTokens.TokensAccepted | contrib/inventory_builder/inventory.py:156-178 | with readable hosts a token list is refused exactly for an empty token or one that starts with a letter |
| HostTokens.UpdateSucceeds | contrib/inventory_builder/inventory.py:83-98 | an update of a readable inventory succeeds exactly when every host has an id and every token is accepted |
| HostTokens.FirstDecides | contrib/inventory_builder/inventory.py:114-122 | of an option string the first option that is not passed over decides: `ip=` gives its value, two equals signs an error |
| HostTokens.NoneDecides | contrib/inventory_builder/inventory.py:114-122 | without such an option the address is not found |
| Addresses.OptionRoundTrip | contrib/inventory_builder/inventory.py:175-176 | an address survives being written and read exactly when it has no space and no equals sign |
| Addresses.IpReadBack | contrib/inventory_builder/inventory.py:114-122 | it is read back whatever variables follow it |
| Addresses.NewHostOverwrites | contrib/inventory_builder/inventory.py:132-176 | with a dotted prefix that ends in an id there is an inventory of one host that the run for another address replaces by that other host, under the same name |
| Addresses.RefinesAddressSet | contrib/inventory_builder/inventory.py:155-196 | over every token list the host list is an ordered set of addresses: adding appends an unknown one, `-ip` removes it, the others keep their order |
| Addresses.LoadFilesAll | contrib/inventory_builder/inventory.py:280-290 | `all` after loading is the replay of the assignments met, in order |
| Addresses.PrintReplayed | contrib/inventory_builder/inventory.py:280-335 | each host is listed once, with the address of its last assignment |
| Addresses.LoadThenPrint | contrib/inventory_builder/inventory.py:280-335 | loading files into an empty inventory and printing lists every host with the address of its last group, and fails exactly when some host was last met in a group called `all` |
| LoadedSections.LoadedSection | contrib/inventory_builder/inventory.py:278-290 | after a successful load every section but `all` lists what it did before (the cluster also workers and masters), then the hosts that the files give for its group, in order; those carry no options, the others keep theirs |
| LoadedSections.LoadFileIf | contrib/inventory_builder/inventory.py:280-283 | a file is loaded exactly when each of its hosts has an address |
| LoadedSections.LoadKeepsPrefix | contrib/inventory_builder/inventory.py:264-291 | loading stops at the first incomplete file, with the files before it saved |
| LoadedOptions.OptionsOf | contrib/inventory_builder/inventory.py:283-287 | split at its spaces, an option string is the two address options and `key=value` for each other variable, in order |
| LoadedOptions.LoadedEntryText | contrib/inventory_builder/inventory.py:280-290 | `all` holds for each host the options of the last group that has it in the last file that has it, and nothing if that group is `all` |
| LoadedOptions.UnloadedEntry | contrib/inventory_builder/inventory.py:280-290 | a host in no file keeps its entry |
| RoleHistory.AllIsBuilt | contrib/inventory_builder/inventory.py:85-86 | after purge and merge `all` equals the built list, in order and values |
| RoleHistory.RoleTransfer | contrib/inventory_builder/inventory.py:85-95 | a section ends as its surviving entries, in order, followed by the members assigned now |
| RoleHistory.UpdateTransfer | contrib/inventory_builder/inventory.py:81-98 | the same for a whole successful run, for every section |
| UpdateSections.UpdateKeys | contrib/inventory_builder/inventory.py:81-98 | an update creates the missing ones of the seven sections, in order, and no other |
| UpdateSections.OtherSection | contrib/inventory_builder/inventory.py:198-204 | a section that is no role keeps exactly its listed hosts and names of sections, in order, with their options |
| UpdateSections.SectionOptions | contrib/inventory_builder/inventory.py:198-253 | an update changes no option of a role section; new entries carry none |
| UpdateSections.Invocation | contrib/inventory_builder/inventory.py:70-100 | what each kind of invocation leaves in the file, and when it raises |
| RoleHistory.PlacementAfterRun | contrib/inventory_builder/inventory.py:234-248 | everybody works below scale; at scale the first three are reflectors and the others workers, or masters at massive scale |
| RoleHistory.InvStep | contrib/inventory_builder/inventory.py:81-98 | one run keeps the invariant of the role sections |
| RoleHistory.SavedKeepsInv | contrib/inventory_builder/inventory.py:70-100 | so does every invocation, failed or not |
| RoleHistory.EveryHistory | contrib/inventory_builder/inventory.py:83-98 | after every history of adds and deletes from an empty inventory, thresholds crossed either way: `etcd` and `vault` are the first three hosts, `calico-rr` is within `etcd`, `kube-master` within the first five, `k8s-cluster:children` lists workers and masters as soon as there are hosts, no host is an orphan, and `etcd` lies within the cluster and the reflectors |
| RoleHistory.PlacementHistory | contrib/inventory_builder/inventory.py:234-248 | over every history under one threshold: every host works while the inventory is below it; from it on the first three are reflectors and the others workers, or masters at massive scale |
| RoleLayout.FreshHosts | contrib/inventory_builder/inventory.py:155-176 | distinct addresses get the names 1 to n in order |
| RoleLayout.FreshLayout | contrib/inventory_builder/inventory.py:88-95 | a fresh build below scale makes everybody a worker; up to massive scale `etcd` and `kube-node` partition `all`; beyond, `etcd`, `kube-master` and `kube-node` do |
| RoleLayout.LayoutBySize | contrib/inventory_builder/inventory.py:59-60 | by default the sizes are 50 and 200; with SCALE_THRESHOLD set both are its value |
| RoleLayout.FreshWorkers | contrib/inventory_builder/inventory.py:234-248 | the workers of a fresh build are the hosts after the ones the thresholds reserve |
| RoleSeparation.SeparationAfterUpdate | contrib/inventory_builder/inventory.py:222-248 | one run leaves reflectors apart from workers and masters exactly when none of the hosts it is about to mix had the other role before |
| RoleSeparation.SeparationOfGrowth | contrib/inventory_builder/inventory.py:222-248 | after a first build and any add-only runs they are apart exactly when the first build was at scale or scale is not reached |
| RoleSeparation.CrossingTheThreshold | contrib/inventory_builder/inventory.py:224-231 | for any distinct addresses one fewer than the threshold, and one more: two runs that end with a reflector that is a worker |
| RoleSeparation.AddOnlyGrows | contrib/inventory_builder/inventory.py:165-176 | add-only tokens extend the host list and change no entry |
| RoleRepeat.BuildAgain | contrib/inventory_builder/inventory.py:165-171 | add-only tokens, applied again to the list they built, change nothing |
| RoleRepeat.AssignAgain | contrib/inventory_builder/inventory.py:198-253 | assigning the same hosts again leaves every section as it is |
| RoleRepeat.RepeatedRun | contrib/inventory_builder/inventory.py:83-98 | an add-only run repeated leaves the whole inventory equal: sections, orders and values |
| RoleRepeat.RepeatedExactly | contrib/inventory_builder/inventory.py:83-98 | for every safe prefix, an add-only run repeats without effect exactly when the prefix has no dot or every token was known before |
| TerraformAttrs.ParseAttrList | contrib/terraform/terraform.py:111-130 | the loop computes the grouping; a key of the prefix without an index is an error |
| TerraformAttrs.AttrDictIs | contrib/terraform/terraform.py:111-130 | in whatever order the keys come, the grouping fails exactly when some key has no index, and otherwise holds exactly the indexed entries |
| TerraformTree.GceInterfaces | contrib/terraform/terraform.py:481-488 | parsing, nested parsing and dropping of dotted keys are the interface function |
| TerraformTree.DropDotted | contrib/terraform/terraform.py:486-488 | exactly the keys without a dot stay, in order |
| TerraformTree.Regrouped | contrib/terraform/terraform.py:124-130 | grouping undoes flattening for every dictionary that is not empty |
| TerraformTree.InterfaceRoundTrip | contrib/terraform/terraform.py:481-488 | one flattened interface is read back exactly when none of its access configurations is empty |
| TerraformTree.TreeRoundTrip | contrib/terraform/terraform.py:481-488 | reading any state of a tree of interfaces succeeds and gives each interface once, itself exactly when it has no empty configuration; it gives the whole tree exactly when none has |
| TerraformIndex.IterHostIp | contrib/terraform/terraform.py:680-691 | three fields are set when the id is listed; a host without an id is an error |
| TerraformIndex.QueryHost | contrib/terraform/terraform.py:695-700 | the attributes of the first host of that name, reading no further |
| TerraformIndex.QueryList | contrib/terraform/terraform.py:703-715 | the incremental index equals, group by group, the list of the records that name it; its groups are exact precisely when none is called `_meta`, and there are no others |
| TerraformIndex.AddToGroups | contrib/terraform/terraform.py:708-710 | one name is appended to each distinct group, in whatever order the set is walked |
| TerraformIndex.MembershipsConserved | contrib/terraform/terraform.py:707-710 | group sizes add up to the distinct memberships of the records |
| TerraformIndex.IndexConserved | contrib/terraform/terraform.py:703-715 | with no group called `_meta` the whole index holds as many names as the records declare distinct memberships |
| TerraformIndex.ListingPlaces | contrib/terraform/terraform.py:707-710 | a group lists the names at exactly the places whose records list it, in record order |
| TerraformIndex.FirstNamedIsFirst | contrib/terraform/terraform.py:695-700 | among records of one name the scan answers with the first |
| TerraformIndex.FirstNamedFails | contrib/terraform/terraform.py:683 | a host without an id before the target is an error, if there are floating addresses |
| TerraformIndex.HostvarsIsLast | contrib/terraform/terraform.py:712 | among records of one name the listing keeps the last |
| TerraformIndex.ListingFails | contrib/terraform/terraform.py:680-691 | the listing fails exactly when there are floating addresses and some host has no id |
| TerraformIndex.ScanAgreesWithIndex | contrib/terraform/terraform.py:695-715 | with unique names the scan gives the entry of the full listing or nothing, also under the overlay |
| TerraformIndex.OverlayKeepsGroups | contrib/terraform/terraform.py:763-778 | the overlay changes only the three address fields of the hosts whose id is listed, and no group |
| EtcdCerts.SignMembers | roles/etcd/files/make-ssl-etcd.sh:72-85 | the loop issues a member and an admin pair for each host, in order |
| EtcdCerts.SignNodes | roles/etcd/files/make-ssl-etcd.sh:88-95 | the loop issues a node pair for each host, in order |
| EtcdCerts.RunScript | roles/etcd/files/make-ssl-etcd.sh:62-98 | authority reused or made, pairs issued, everything moved over the installed files; a key without its certificate stops it |
| EtcdConvergence.ScriptExtends | roles/etcd/files/make-ssl-etcd.sh:62-98 | on a directory made by one authority the script succeeds, changes no file and adds exactly the pairs it was asked for, all signed by that authority |
| EtcdRole.Play.SetGenCerts | roles/etcd/tasks/check_certs.yml:26-37 | set exactly when the first etcd host lacks the authority or some host's key |
| EtcdRole.Play.SetGenNodeCerts | roles/etcd/tasks/check_certs.yml:40-55 | for every host whether its key is missing on the first etcd host |
| EtcdRole.Play.SetSyncCerts | roles/etcd/tasks/check_certs.yml:57-68 | a host syncs exactly when its key is to be made, or it lacks the authority or its key, or its key differs |
| EtcdRole.Play.CheckCerts | roles/etcd/tasks/check_certs.yml:2-68 | all facts of the play, told from the stores |
| EtcdRole.Play.Generate | roles/etcd/tasks/gen_certs_script.yml:54-72 | the script runs once, for the hosts that lack a key, exactly when needed and the play starts with the first etcd host |
| EtcdRole.Play.AllNodeCerts | roles/etcd/tasks/gen_certs_script.yml:87-91 | the list names the authority and the pair of every client, and nothing else |
| EtcdRole.Play.Pack | roles/etcd/tasks/gen_certs_script.yml:97 | an archive holds the listed files that are there |
| EtcdRole.MasterNamesWanted | roles/etcd/tasks/gen_certs_script.yml:82-91 | the two lists of an etcd host name exactly the files it is meant to have |
| EtcdRole.Play.GatherOne | roles/etcd/tasks/gen_certs_script.yml:96-119 | the two gathering tasks for one host, from the name lists |
| EtcdRole.Play.Gather | roles/etcd/tasks/gen_certs_script.yml:74-119 | every host that is to receive something has an archive of the files it is meant to have |
| EtcdRole.Play.Unpack | roles/etcd/tasks/gen_certs_script.yml:140-162 | exactly the hosts that sync, but the first etcd host, get their archive over their files |
| EtcdRole.Play.RunRole | roles/etcd/tasks/gen_certs_script.yml:54-162 | facts, generation, gathering and unpacking in their order compute the run function |
| EtcdConvergence.GenerationExtends | roles/etcd/tasks/gen_certs_script.yml:54-72 | generation keeps every file of the first etcd host and gives every host of the inventory a key, if it runs at all |
| EtcdConvergence.HostAfterRun | roles/etcd/tasks/gen_certs_script.yml:96-162 | no host loses or changes a file, all agree with the first etcd host, and a host with a key is complete |
| EtcdConvergence.RunKeepsSound | roles/etcd/tasks/gen_certs_script.yml:54-162 | one run over any play keeps the invariant of the certificate stores |
| EtcdConvergence.EveryRoleHistory | roles/etcd/tasks/gen_certs_script.yml:54-162 | so does every history of runs with the same etcd hosts, whatever the other groups and plays |
| EtcdConvergence.PlayConverges | roles/etcd/tasks/gen_certs_script.yml:67-71 | a run gives all hosts of its play their certificates exactly when the play starts with the first etcd host or that host has all their keys |
| EtcdConvergence.QuietRerun | roles/etcd/tasks/check_certs.yml:26-68 | on converged hosts nothing is generated and nothing is copied |
| EtcdConvergence.ClusterPlaybook | cluster.yml:50-60 | from any sound state the two plays converge every host, keep every file, and done again change nothing |
| EtcdContents.BareStore | cluster.yml:50-60 | from bare hosts the playbook gives every host exactly its share: a worker the certificate of the authority and its own node pair; an etcd host also the authority's key, its own member and admin pairs and all node pairs; the first etcd host everything |
| EtcdContents.EveryHistoryIsModest | roles/etcd/tasks/gen_certs_script.yml:74-162 | over every history of runs no host outside etcd holds a file but the authority's certificate and its own node pair, and no etcd host but the first a member or admin pair of another |
| EtcdContents.BareIsModest | roles/etcd/tasks/gen_certs_script.yml:74-162 | bare hosts start that way |
| EtcdContents.StaleKeyReplaced | roles/etcd/tasks/check_certs.yml:57-68 | from any state, after a run a host of the play has the node key that the first etcd host held for it |
| EtcdContents.MissingAuthoritySent | roles/etcd/tasks/check_certs.yml:57-68 | from any state, a host without the authority's certificate is sent it |
| EtcdContents.UpToDateUntouched | roles/etcd/tasks/check_certs.yml:57-68 | a host with the right key and some authority is left alone |
| EtcdContents.CommonNameIs | roles/etcd/files/make-ssl-etcd.sh:74 | the common name is the host name up to its first dot |
| EtcdContents.LackingOnce | roles/etcd/tasks/gen_certs_script.yml:57-66 | the script is asked for no host twice |
| EtcdContents.ScriptFails | roles/etcd/files/make-ssl-etcd.sh:63-65 | the script fails exactly when the authority's key is there and its certificate is not (or no key is in its place) |
| EtcdContents.LostAuthorityRemade | roles/etcd/tasks/check_certs.yml:26-32 | where the first etcd host has lost the authority it is made anew, even if no node key is missing |
| EtcdContents.NewAuthority | roles/etcd/files/make-ssl-etcd.sh:66-69 | without an authority's key a new, self-signed authority is made |
| EtcdConvergence.ConvergesIfCovered | cluster.yml:50-60 | from bare hosts the cluster playbook converges every host exactly when every etcd host is in the cluster or is a reflector |
| EtcdConvergence.UncoveredNeverServed | roles/etcd/tasks/gen_certs_script.yml:62-66 | an etcd host outside the cluster and the reflectors has no node key after a run, and generation is found needed |
| EtcdConvergence.UncoveredEverAfter | roles/etcd/tasks/gen_certs_script.yml:62-66 | nor after any history of runs |
| EtcdConvergence.PlaybookKeys | roles/etcd/tasks/gen_certs_script.yml:57-66 | the playbook makes node keys for the hosts of the inventory only |
| EtcdJoin.JoinPlay.CheckMembership | roles/etcd/tasks/configure.yml:95-106 | each host records whether the member list matches its address |
| EtcdJoin.JoinPlay.RenderInitialCluster | roles/etcd/tasks/join_etcd_member.yml:13-24 | the template writes the recorded members and the joiner, separated by commas |
| EtcdJoin.JoinPlay.JoinMember | roles/etcd/tasks/join_etcd_member.yml:2-36 | one member added, one configuration rendered, one fact refreshed |
| EtcdJoin.JoinPlay.JoinMembers | roles/etcd/tasks/configure.yml:121-126 | the loop joins, one at a time and in group order, the hosts not recorded, if the cluster is healthy |
| EtcdJoin.MemberOfInjective | roles/kubespray-defaults/defaults/main.yaml:338-341 | index-based names tell hosts apart |
| EtcdJoin.OwnLineMatches | roles/etcd/tasks/join_etcd_member.yml:26-33 | the check after joining finds the joiner, whether it has started or not |
| EtcdJoin.EveryStep | roles/etcd/tasks/configure.yml:121-126 | after every step: who was added, who the members are and who is recorded |
| EtcdJoin.RecordedAreMembers | roles/etcd/tasks/join_etcd_member.yml:26-36 | with no false match the recorded hosts are exactly the members, after every step |
| EtcdJoin.AllJoin | roles/etcd/tasks/configure.yml:95-126 | the loop ends with every host a member exactly when no host outside the cluster matches a member's line |
| EtcdJoin.AddedOnce | roles/etcd/tasks/configure.yml:121-126 | one `member add` for each host that was not a member, and no other |
| EtcdJoin.UnhealthyUntouched | roles/etcd/tasks/configure.yml:126 | an unhealthy cluster is left alone |
| EtcdJoin.RenderedCluster | roles/etcd/tasks/join_etcd_member.yml:15-24 | the rendered list, split at its commas, names every current member and the joiner, each once, under the name it has in the group |
| EtcdConfig.EveryConfig | roles/etcd/tasks/join_etcd_member.yml:13-24 | after any number of turns the configuration of every host added lists exactly the members at its turn and itself, each once, as `etcd<place>=https://<address>:2380`; every other configuration is the one it was |
| EtcdJoin.GrepIs | roles/etcd/tasks/configure.yml:96 | a pattern without a dot matches exactly the texts that contain it |
| EtcdJoin.DotMatches | roles/etcd/tasks/configure.yml:96 | a dot matches any one character |
| EtcdAddresses.GrepAcross | roles/etcd/tasks/configure.yml:96 | a dotted address matches on one side of a separator of two or more characters that are not digits, or not at all |
| EtcdAddresses.LineGrep | roles/etcd/tasks/configure.yml:96 | a dotted address matches a member's line only in its id, in its address with the peer port or, once started, in its address with the client port |
| EtcdAddresses.AddressesDecide | roles/etcd/tasks/configure.yml:95-126 | with dotted addresses every host becomes a member exactly when no outsider's address matches an id of a member, or a member's address with one of its ports |
| EtcdAddresses.ShadowedNeverJoins | roles/etcd/tasks/configure.yml:96 | a host whose address lies inside a member's, or that one of the two ports completes, never joins |
| Deployment.HistoriesDeploy | cluster.yml:50-60 | the inventory of every history of builder runs, deployed on bare hosts, converges every host of `all`, and repeating the playbook changes nothing |
| Deployment.GrowthDeploys | cluster.yml:50-60 | hosts added later are certified under the old authority, and no file of any host changes |
| Deployment.LeaderOfGrowth | contrib/inventory_builder/inventory.py:234-248 | in an inventory that only grew, the first worker is the first etcd host exactly when it was built below scale |
| Deployment.ScalingPlay | scale.yml:26-36 | the scaling playbook converges all workers exactly when the inventory was built below scale or their keys exist already |
| Deployment.NewWorkerUnserved | scale.yml:26-36 | built at scale with three hosts or more and deployed, a worker added since has no certificates after the scaling playbook |
| Deployment.OneMoreWorker | scale.yml:26-36 | for any five distinct addresses or more at scale and a new one, two runs that add such a worker |
| ParseYaml.DeleteDeeper | customized/nvidia/kube-job.sh:13 | the loop, in any order, deletes the indices that compare greater as strings |
| ParseYaml.QualifiedName | customized/nvidia/kube-job.sh:15 | the ancestor names joined with underscores; reading an absent one creates it empty |
| ParseYaml.ReadLine | customized/nvidia/kube-job.sh:10-17 | the effect of one line on the array and the output |
| ParseYaml.ParseLines | customized/nvidia/kube-job.sh:10-18 | the output for all lines |
| ParseYaml.ForestRoundTrip | customized/nvidia/kube-job.sh:10-18 | below any ancestors, a shallow forest is printed back leaf by leaf and the ancestors stay |
| ParseYaml.ForestLosesNames | customized/nvidia/kube-job.sh:13 | the names printed are never longer in all than the right ones, and shorter once a line is deeper than nine levels |
| ParseYaml.TreeRoundTrip | customized/nvidia/kube-job.sh:5-19 | a tree is read back, every leaf in preorder under its full path, exactly when no line is deeper than nine levels |
| ParseYaml.ShallowRoundTrip | customized/nvidia/kube-job.sh:5-19 | the same in one direction for trees with empty keys and empty mappings |
| YamlNames.AnyLines | customized/nvidia/kube-job.sh:10-18 | for any lines at all, each line with a value is printed in order, named level by level by the last line at that level that no later line ends, in the text order of depths |
| YamlNames.ShallowLines | customized/nvidia/kube-job.sh:10-18 | for any lines of at most nine levels, with jumps in depth, the name is, level by level, the key of the last earlier line at that level that no shallower line follows, or empty |
| YamlNames.AncestorIs | customized/nvidia/kube-job.sh:12-15 | that key is the one of the line at the level after which every line is at another level and ends it not; without such a line it is empty |
| YamlNames.GreaterIs | customized/nvidia/kube-job.sh:13 | text order: after a common beginning the longer text is greater, or the first difference decides |
| YamlNames.StaleNameForgotten | customized/nvidia/kube-job.sh:13 | a deeper name is not seen below a later, shallower line |

## Left out

- Inventory.KubesprayInventory.Start: the file is the section map itself; reading and writing it, interpolation, the DEFAULT section and the lower-casing of option names are not modelled, so host names and HOST_PREFIX are taken to be lower case.
- HostNames.FreshNames: characters are ASCII; the digits and letters of other scripts that Python accepts are not modelled.
- RoleRepeat.RepeatedExactly: leaves out dotted prefixes whose first part ends in digits, with which a run may overwrite a host.
- Inventory.KubesprayInventory.LoadFile: the parsed files are a parameter, with text values; JSON and YAML parsing and the choice between them are not modelled, and any order of their keys is allowed.
- Help, print_cfg, debug output and the printed form of the addresses.
- EtcdCerts.RunScript: key sizes, extensions, validity and file modes are not modelled; file names are a data type, so the clash of a host `x-key` with the key file of a host `x` is not either.
- EtcdRole.Play.Gather: packing and unpacking for etcd hosts and for other hosts are one loop each here and several tasks in the source; they touch different hosts.
- EtcdConvergence.EveryRoleHistory: the etcd group is fixed over a history; changing it between runs is not modelled.
- EtcdConvergence.ClusterPlaybook: says nothing of node certificates copied again to other etcd hosts for hosts added later; the source does not do it.
- EtcdJoin.JoinPlay.JoinMember: consensus, retries and delays are not modelled, and `member add` succeeds.
- EtcdJoin.JoinPlay.CheckMembership: a line of the member list is taken in the form the v2 client prints it (id, name, peer URL, client URL and role, or id and peer URL before the member has started); the client is not part of this model. The ids are arbitrary texts, one for each host, and what a listing says of a member's start and role may change between listings.
- EtcdAddresses.LineGrep: of regular expressions only the dot is special.
- The etcd-events copies of these tasks, vault certificates, and the services and containers that run etcd.
- ParseYaml.ParseLines: starts from tokenised lines; the `sed` expressions, odd indentation, tabs and the constant prefix argument are not modelled.
- TerraformTree.GceInterfaces: Python 2 is assumed, where `keys()` is a list and may be walked while entries are deleted.
- TerraformIndex.QueryHost: host names and attributes are texts, and the floating addresses are a parameter.
- The other Terraform providers, parse_dict and parse_list, the search for state files, argument parsing, JSON output and the host file: field copying and printing.
- library/kube.py, playbooks, templates, manifests and images.
