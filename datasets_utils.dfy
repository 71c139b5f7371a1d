/**
 * The permission that lets a user see unpublished datasets of a type, and
 * the lookup of a dataset by id that the dataset pages share.
 */
module DatasetsUtils {
  import opened Wrappers
  import opened DatasetModels

  const ManageReference := "datasets.manage_unpublished_reference_datasets"
  const ManageMaster := "datasets.manage_unpublished_master_datasets"
  const ManageDatacut := "datasets.manage_unpublished_datacut_datasets"

  /**
   * dataset_type_to_manage_unpublished_permission_codename: a dict lookup,
   * None standing for the KeyError any other type raises.
   */
  function ManagePermission(dtype: int): (r: Option<string>)
    ensures r.Some? <==> dtype == ReferenceType || dtype == MasterType || dtype == DatacutType
    ensures dtype == ReferenceType ==> r == Some(ManageReference)
    ensures dtype == MasterType ==> r == Some(ManageMaster)
    ensures dtype == DatacutType ==> r == Some(ManageDatacut)
  {
    if dtype == ReferenceType then Some(ManageReference)
    else if dtype == MasterType then Some(ManageMaster)
    else if dtype == DatacutType then Some(ManageDatacut)
    else None
  }

  /** Each type has a permission of its own. */
  lemma ManagePermissionInjective(a: int, b: int)
    requires ManagePermission(a).Some? && ManagePermission(a) == ManagePermission(b)
    ensures a == b
  {
  }

  /** Holding the manage permission for the dataset's type; a type without one raises. */
  function ManagesType(user: User, dtype: int): (r: Result<bool, string>)
    ensures r.Err? <==> ManagePermission(dtype).None?
    ensures r.Ok? ==> (r.value <==> HasPerm(user, ManagePermission(dtype).value))
  {
    match ManagePermission(dtype)
    case None => Err("KeyError")
    case Some(codename) => Ok(HasPerm(user, codename))
  }

  /**
   * find_dataset: the live dataset with the id, provided it is published
   * or the user manages unpublished datasets of its type; anything else is
   * the 404. The permission is looked up first, so a dataset of a type
   * without a permission raises even when published.
   */
  function FindDataset(c: Catalogue, id: string, user: User): (r: Result<DataSet, string>)
    ensures r.Ok? <==> id in c.datasets && !c.datasets[id].deleted
                       && ManagePermission(c.datasets[id].dtype).Some?
                       && (c.datasets[id].published || HasPerm(user, ManagePermission(c.datasets[id].dtype).value))
    ensures r.Ok? ==> r.value == c.datasets[id]
    ensures r == Err("Http404") <==>
              id !in c.datasets || c.datasets[id].deleted
              || (ManagePermission(c.datasets[id].dtype).Some? && !c.datasets[id].published
                  && !HasPerm(user, ManagePermission(c.datasets[id].dtype).value))
  {
    if id !in c.datasets || c.datasets[id].deleted then Err("Http404")
    else
      var d := c.datasets[id];
      match ManagesType(user, d.dtype)
      case Err(e) => Err(e)
      case Ok(manages) =>
        if manages then Ok(d)
        else if !d.published then Err("Http404")
        else Ok(d)
  }

  /** Every user finds a published live dataset of a known type; only managers find an unpublished one. */
  lemma FindDatasetVisibility(c: Catalogue, id: string, user: User)
    requires id in c.datasets && !c.datasets[id].deleted && ManagePermission(c.datasets[id].dtype).Some?
    ensures c.datasets[id].published ==> FindDataset(c, id, user) == Ok(c.datasets[id])
    ensures !c.datasets[id].published ==>
              (FindDataset(c, id, user).Ok? <==> HasPerm(user, ManagePermission(c.datasets[id].dtype).value))
  {
  }
}
