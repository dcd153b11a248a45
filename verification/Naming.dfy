/** The names of tenants' packages (internal/controllers/tenant/reconciler.go). */
module Naming {
  import opened Strings

  /** The package of a tenant: group, kind and name joined by underscores. */
  function PackageName(tenant: string): string {
    Join(["admin.yndd.io", "Tenant", tenant], "_")
  }

  /** Different tenants have different packages. */
  lemma PackageNamesDiffer(a: string, b: string)
    ensures PackageName(a) == PackageName(b) <==> a == b
  {
    PackageNameShape(a);
    PackageNameShape(b);
    if PackageName(a) == PackageName(b) {
      assert ("admin.yndd.io_Tenant_" + a)[21..] == a;
      assert ("admin.yndd.io_Tenant_" + b)[21..] == b;
    }
  }

  lemma PackageNameShape(tenant: string)
    ensures PackageName(tenant) == "admin.yndd.io_Tenant_" + tenant
  {
    JoinCons("Tenant", [tenant], "_");
    JoinCons("admin.yndd.io", ["Tenant", tenant], "_");
    assert ["Tenant"] + [tenant] == ["Tenant", tenant];
    assert ["admin.yndd.io"] + ["Tenant", tenant] == ["admin.yndd.io", "Tenant", tenant];
    assert "admin.yndd.io" + "_" + ("Tenant" + "_" + tenant) == "admin.yndd.io_Tenant_" + tenant;
  }
}
